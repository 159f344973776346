/** The byte-level scanner that cuts the literal bytes of a JSON object out of a line, and its round
    trip with a printer. */
module LiteralScanner {
  import opened Wrappers

  type Byte = b: int | 0 <= b < 256

  const QUOTE: Byte := 0x22
  const COLON: Byte := 0x3A
  const BACKSLASH: Byte := 0x5C
  const OPEN: Byte := 0x7B
  const CLOSE: Byte := 0x7D

  /** IndexOutOfRange is the read past the end of the line. */
  datatype ScanError = KeyAbsent | NoColon | NotAnObject | IndexOutOfRange

  predicate IsSpace(b: Byte)
  {
    b == 0x20 || b == 0x09 || b == 0x0D || b == 0x0A
  }

  /** Nothing but blanks, tabs, carriage returns and line feeds. */
  predicate Spaces(bytes: seq<Byte>)
  {
    forall i | 0 <= i < |bytes| :: bytes[i] == 0x20 || bytes[i] == 0x09 || bytes[i] == 0x0D || bytes[i] == 0x0A
  }

  // ---------------------------------------------------------------- what the loops compute

  function Shift(n: nat, found: Option<nat>): Option<nat>
  {
    if found.None? then None else Some(n + found.value)
  }

  /** How many bytes the balanced-brace scan consumes; None if it runs off the end. */
  function Balanced(text: seq<Byte>, depth: int, instr: bool, esc: bool): Option<nat>
  {
    if text == [] then None
    else
      var ch, rest := text[0], text[1..];
      if instr then
        if esc then Shift(1, Balanced(rest, depth, true, false))
        else if ch == BACKSLASH then Shift(1, Balanced(rest, depth, true, true))
        else Shift(1, Balanced(rest, depth, ch != QUOTE, false))
      else if ch == QUOTE then Shift(1, Balanced(rest, depth, true, esc))
      else if ch == OPEN then Shift(1, Balanced(rest, depth + 1, false, esc))
      else if ch == CLOSE then
        if depth - 1 == 0 then Some(1) else Shift(1, Balanced(rest, depth - 1, false, esc))
      else Shift(1, Balanced(rest, depth, false, esc))
  }

  function Find(text: seq<Byte>, pattern: seq<Byte>): Option<nat>
  {
    if pattern <= text then Some(0)
    else if text == [] then None
    else Shift(1, Find(text[1..], pattern))
  }

  function SkipSpaces(text: seq<Byte>): Option<nat>
  {
    if text == [] then None
    else if IsSpace(text[0]) then Shift(1, SkipSpaces(text[1..]))
    else Some(0)
  }

  function Anchor(key: seq<Byte>): seq<Byte>
  {
    [QUOTE] + key + [QUOTE]
  }

  /** The scan from just after the key. */
  function AfterKey(text: seq<Byte>): Result<seq<Byte>, ScanError>
  {
    var toColon := SkipSpaces(text);
    if toColon.None? || |text| <= toColon.value then Err(IndexOutOfRange)
    else if text[toColon.value] != COLON then Err(NoColon)
    else AfterColon(text[toColon.value + 1..])
  }

  /** The scan from just after the colon. */
  function AfterColon(value: seq<Byte>): Result<seq<Byte>, ScanError>
  {
    var toBrace := SkipSpaces(value);
    if toBrace.None? || |value| <= toBrace.value then Err(IndexOutOfRange)
    else if value[toBrace.value] != OPEN then Err(NotAnObject)
    else
      var body := value[toBrace.value..];
      var size := Balanced(body, 0, false, false);
      if size.None? || |body| < size.value then Err(IndexOutOfRange) else Ok(body[..size.value])
  }

  function Literal(line: seq<Byte>, key: seq<Byte>): Result<seq<Byte>, ScanError>
  {
    var at := Find(line, Anchor(key));
    if at.None? || |line| < at.value + |Anchor(key)| then Err(KeyAbsent)
    else AfterKey(line[at.value + |Anchor(key)|..])
  }

  lemma {:induction false} FindInside(text: seq<Byte>, pattern: seq<Byte>)
    ensures Find(text, pattern).Some? ==>
              && Find(text, pattern).value + |pattern| <= |text|
              && pattern <= text[Find(text, pattern).value..]
  {
    if !(pattern <= text) && text != [] {
      FindInside(text[1..], pattern);
    }
  }

  lemma {:induction false} SkipSpacesInside(text: seq<Byte>)
    ensures SkipSpaces(text).Some? ==> SkipSpaces(text).value < |text|
  {
    if text != [] {
      SkipSpacesInside(text[1..]);
    }
  }

  // ---------------------------------------------------------------- the scanner

  lemma FindStep(line: seq<Byte>, anchor: seq<Byte>, at: nat)
    requires at <= |line|
    ensures Find(line[at..], anchor)
         == if anchor <= line[at..] then Some(0)
            else if at == |line| then None else Shift(1, Find(line[at + 1..], anchor))
  {
    if at < |line| {
      assert line[at..][1..] == line[at + 1..];
    }
  }

  method FindAnchor(line: seq<Byte>, anchor: seq<Byte>) returns (at: int)
    ensures at == match Find(line, anchor) case None => -1 case Some(n) => n
    ensures 0 <= at ==> at + |anchor| <= |line|
  {
    hide Find;
    FindInside(line, anchor);
    at := 0;
    assert line[0..] == line;
    while at < |line|
      invariant 0 <= at <= |line|
      invariant Find(line, anchor) == Shift(at, Find(line[at..], anchor))
    {
      FindStep(line, anchor, at);
      if anchor <= line[at..] {
        return at;
      }
      at := at + 1;
    }
    FindStep(line, anchor, at);
    if anchor == [] {
      return at;
    }
    return -1;
  }

  method SkipFrom(line: seq<Byte>, start: nat) returns (i: Option<nat>)
    requires start <= |line|
    ensures i == Shift(start, SkipSpaces(line[start..]))
    ensures i.Some? ==> i.value < |line|
  {
    var at := start;
    while at < |line|
      invariant start <= at <= |line|
      invariant Shift(start, SkipSpaces(line[start..])) == Shift(at, SkipSpaces(line[at..]))
    {
      assert line[at..][0] == line[at] && line[at..][1..] == line[at + 1..];
      if !IsSpace(line[at]) {
        return Some(at);
      }
      at := at + 1;
    }
    return None;
  }

  method ScanBalanced(line: seq<Byte>, start: nat) returns (end: Option<nat>)
    requires start <= |line|
    ensures end == Shift(start, Balanced(line[start..], 0, false, false))
    ensures end.Some? ==> end.value <= |line|
  {
    var i := start;
    var depth, instr, esc := 0, false, false;
    while i < |line|
      invariant start <= i <= |line|
      invariant Shift(start, Balanced(line[start..], 0, false, false))
             == Shift(i, Balanced(line[i..], depth, instr, esc))
    {
      assert line[i..][0] == line[i] && line[i..][1..] == line[i + 1..];
      var ch := line[i];
      if instr {
        if esc {
          esc := false;
        } else if ch == BACKSLASH {
          esc := true;
        } else if ch == QUOTE {
          instr := false;
        }
      } else if ch == QUOTE {
        instr := true;
      } else if ch == OPEN {
        depth := depth + 1;
      } else if ch == CLOSE {
        depth := depth - 1;
        if depth == 0 {
          return Some(i + 1);
        }
      }
      i := i + 1;
    }
    return None;
  }

  lemma LiteralFrom(line: seq<Byte>, key: seq<Byte>)
    ensures Find(line, Anchor(key)).None? ==> Literal(line, key) == Err(KeyAbsent)
    ensures Find(line, Anchor(key)).Some? && Find(line, Anchor(key)).value + |Anchor(key)| <= |line| ==>
              Literal(line, key) == AfterKey(line[Find(line, Anchor(key)).value + |Anchor(key)|..])
  {
    hide Find, AfterKey, Anchor;
  }

  lemma AfterKeyFrom(line: seq<Byte>, after: nat)
    requires after <= |line|
    ensures var colon := Shift(after, SkipSpaces(line[after..]));
      if colon.None? then AfterKey(line[after..]) == Err(IndexOutOfRange)
      else colon.value < |line| ==>
             AfterKey(line[after..]) == if line[colon.value] != COLON then Err(NoColon)
                                        else AfterColon(line[colon.value + 1..])
  {
    hide SkipSpaces, AfterColon;
    var found := SkipSpaces(line[after..]);
    if found.Some? && after + found.value < |line| {
      assert line[after..][found.value] == line[after + found.value];
      assert line[after..][found.value + 1..] == line[after + found.value + 1..];
    }
  }

  lemma AfterColonFrom(line: seq<Byte>, after: nat)
    requires after <= |line|
    ensures var brace := Shift(after, SkipSpaces(line[after..]));
      if brace.None? then AfterColon(line[after..]) == Err(IndexOutOfRange)
      else brace.value < |line| ==>
             AfterColon(line[after..]) == if line[brace.value] != OPEN then Err(NotAnObject)
                                          else Cut(line, brace.value)
  {
    hide SkipSpaces, Balanced;
    var found := SkipSpaces(line[after..]);
    if found.Some? && after + found.value < |line| {
      assert line[after..][found.value] == line[after + found.value];
      assert line[after..][found.value..] == line[after + found.value..];
    }
  }

  /** The balanced object that opens at a place of the line. */
  function Cut(line: seq<Byte>, start: nat): Result<seq<Byte>, ScanError>
    requires start <= |line|
  {
    var size := Balanced(line[start..], 0, false, false);
    if size.None? || |line| - start < size.value then Err(IndexOutOfRange) else Ok(line[start..][..size.value])
  }

  lemma CutIs(line: seq<Byte>, start: nat)
    requires start <= |line|
    ensures var end := Shift(start, Balanced(line[start..], 0, false, false));
      if end.None? then Cut(line, start) == Err(IndexOutOfRange)
      else end.value <= |line| ==> start <= end.value && Cut(line, start) == Ok(line[start..end.value])
  {
    hide Balanced;
    var size := Balanced(line[start..], 0, false, false);
    if size.Some? && start + size.value <= |line| {
      assert line[start..][..size.value] == line[start..start + size.value];
    }
  }

  method LiteralValue(line: seq<Byte>, key: seq<Byte>) returns (r: Result<seq<Byte>, ScanError>)
    ensures r == Literal(line, key)
  {
    hide Find, SkipSpaces, Balanced, Literal, AfterKey, AfterColon, Cut, Shift;
    LiteralFrom(line, key);
    var anchor := [QUOTE] + key + [QUOTE];
    var at := FindAnchor(line, anchor);
    if at < 0 {
      return Err(KeyAbsent);
    }
    AfterKeyFrom(line, at + |anchor|);
    var colon := SkipFrom(line, at + |anchor|);
    if colon.None? {
      return Err(IndexOutOfRange);
    }
    if line[colon.value] != COLON {
      return Err(NoColon);
    }
    AfterColonFrom(line, colon.value + 1);
    var brace := SkipFrom(line, colon.value + 1);
    if brace.None? {
      return Err(IndexOutOfRange);
    }
    if line[brace.value] != OPEN {
      return Err(NotAnObject);
    }
    CutIs(line, brace.value);
    var end := ScanBalanced(line, brace.value);
    if end.None? {
      return Err(IndexOutOfRange);
    }
    return Ok(line[brace.value..end.value]);
  }

  // ---------------------------------------------------------------- JSON and its printer

  /** A string is printed piece by piece: a plain byte, or a backslash with the byte it escapes. */
  datatype Piece = Plain(b: Byte) | Escaped(b: Byte)

  /** Numbers and the three literals are atoms: bytes with no quote and no brace. */
  datatype Json =
    | Atom(bytes: seq<Byte>)
    | Text(pieces: seq<Piece>)
    | Array(items: Items)
    | Object(members: Members)

  datatype Items = NoItems | Item(head: Json, tail: Items)

  datatype Members = NoMembers | Member(key: seq<Piece>, value: Json, rest: Members)

  /** Bytes the scanner passes over outside strings. */
  predicate Neutral(bytes: seq<Byte>)
  {
    forall i | 0 <= i < |bytes| :: bytes[i] != QUOTE && bytes[i] != OPEN && bytes[i] != CLOSE
  }

  predicate ValidPieces(pieces: seq<Piece>)
  {
    forall i | 0 <= i < |pieces| :: pieces[i].Plain? ==> pieces[i].b != QUOTE && pieces[i].b != BACKSLASH
  }

  predicate ValidJson(v: Json)
  {
    match v
    case Atom(bytes) => Neutral(bytes)
    case Text(pieces) => ValidPieces(pieces)
    case Array(items) => ValidItems(items)
    case Object(members) => ValidMembers(members)
  }

  predicate ValidItems(items: Items)
  {
    items.Item? ==> ValidJson(items.head) && ValidItems(items.tail)
  }

  predicate ValidMembers(members: Members)
  {
    members.Member? ==> ValidPieces(members.key) && ValidJson(members.value) && ValidMembers(members.rest)
  }

  function PrintPiece(piece: Piece): seq<Byte>
  {
    match piece
    case Plain(b) => [b]
    case Escaped(b) => [BACKSLASH, b]
  }

  function PrintPieces(pieces: seq<Piece>): seq<Byte>
  {
    if pieces == [] then [] else PrintPiece(pieces[0]) + PrintPieces(pieces[1..])
  }

  function PrintText(pieces: seq<Piece>): seq<Byte>
  {
    [QUOTE] + (PrintPieces(pieces) + [QUOTE])
  }

  /** comma and colon are the separators, with whatever spaces the serializer puts around them. */
  function Print(v: Json, comma: seq<Byte>, colon: seq<Byte>): seq<Byte>
  {
    match v
    case Atom(bytes) => bytes
    case Text(pieces) => PrintText(pieces)
    case Array(items) => [0x5B] + (PrintItems(items, comma, colon) + [0x5D])
    case Object(members) => [OPEN] + (PrintMembers(members, comma, colon) + [CLOSE])
  }

  function PrintItems(items: Items, comma: seq<Byte>, colon: seq<Byte>): seq<Byte>
  {
    match items
    case NoItems => []
    case Item(head, tail) =>
      Print(head, comma, colon) + ((if tail.NoItems? then [] else comma) + PrintItems(tail, comma, colon))
  }

  function PrintMembers(members: Members, comma: seq<Byte>, colon: seq<Byte>): seq<Byte>
  {
    match members
    case NoMembers => []
    case Member(key, value, rest) =>
      PrintText(key) + (colon + (Print(value, comma, colon)
      + ((if rest.NoMembers? then [] else comma) + PrintMembers(rest, comma, colon))))
  }

  // ---------------------------------------------------------------- round trip

  /** One byte outside strings that changes nothing. */
  lemma {:induction false} PassNeutral(bytes: seq<Byte>, rest: seq<Byte>, depth: int)
    requires Neutral(bytes)
    ensures Balanced(bytes + rest, depth, false, false) == Shift(|bytes|, Balanced(rest, depth, false, false))
  {
    if bytes == [] {
      assert bytes + rest == rest;
    } else {
      assert (bytes + rest)[1..] == bytes[1..] + rest;
      PassNeutral(bytes[1..], rest, depth);
    }
  }

  lemma {:induction false} PassPieces(pieces: seq<Piece>, rest: seq<Byte>, depth: int)
    requires ValidPieces(pieces)
    ensures Balanced(PrintPieces(pieces) + rest, depth, true, false)
         == Shift(|PrintPieces(pieces)|, Balanced(rest, depth, true, false))
  {
    if pieces == [] {
      assert PrintPieces(pieces) + rest == rest;
    } else {
      hide Balanced;
      PassPieces(pieces[1..], rest, depth);
      PassPiece(pieces[0], PrintPieces(pieces[1..]) + rest, depth);
      assert PrintPieces(pieces) + rest == PrintPiece(pieces[0]) + (PrintPieces(pieces[1..]) + rest);
    }
  }

  lemma PassPiece(piece: Piece, tail: seq<Byte>, depth: int)
    requires ValidPieces([piece])
    ensures Balanced(PrintPiece(piece) + tail, depth, true, false)
         == Shift(|PrintPiece(piece)|, Balanced(tail, depth, true, false))
  {
    assert piece in [piece];
    match piece
    case Plain(b) =>
      assert ([b] + tail)[1..] == tail;
    case Escaped(b) =>
      assert ([BACKSLASH, b] + tail)[1..] == [b] + tail && ([b] + tail)[1..] == tail;
  }

  lemma PassText(pieces: seq<Piece>, rest: seq<Byte>, depth: int)
    requires ValidPieces(pieces)
    ensures Balanced(PrintText(pieces) + rest, depth, false, false)
         == Shift(|PrintText(pieces)|, Balanced(rest, depth, false, false))
  {
    var body := PrintPieces(pieces);
    var tail := [QUOTE] + rest;
    assert PrintText(pieces) + rest == [QUOTE] + (body + tail);
    assert ([QUOTE] + (body + tail))[1..] == body + tail && tail[1..] == rest;
    PassPieces(pieces, tail, depth);
  }

  lemma Step(b: Byte, tail: seq<Byte>)
    ensures ([b] + tail)[0] == b && ([b] + tail)[1..] == tail
  {
  }

  /** A printed value leaves the scanner where it was, one value further on. */
  lemma {:induction false} PassJson(v: Json, comma: seq<Byte>, colon: seq<Byte>, rest: seq<Byte>, depth: int)
    requires ValidJson(v) && Neutral(comma) && Neutral(colon) && depth > 0
    ensures Balanced(Print(v, comma, colon) + rest, depth, false, false)
         == Shift(|Print(v, comma, colon)|, Balanced(rest, depth, false, false))
    decreases v, 0
  {
    match v
    case Atom(bytes) => PassNeutral(bytes, rest, depth);
    case Text(pieces) => PassText(pieces, rest, depth);
    case Array(items) =>
      hide Print, Balanced;
      PassItems(items, comma, colon, [0x5D] + rest, depth);
      PassBrackets(items, comma, colon, rest, depth);
    case Object(members) =>
      hide Print, Balanced;
      PassMembers(members, comma, colon, [CLOSE] + rest, depth + 1);
      PassBraces(members, comma, colon, rest, depth);
  }

  lemma PassBrackets(items: Items, comma: seq<Byte>, colon: seq<Byte>, rest: seq<Byte>, depth: int)
    requires depth > 0
    requires Balanced(PrintItems(items, comma, colon) + ([0x5D] + rest), depth, false, false)
          == Shift(|PrintItems(items, comma, colon)|, Balanced([0x5D] + rest, depth, false, false))
    ensures Balanced(Print(Array(items), comma, colon) + rest, depth, false, false)
         == Shift(|Print(Array(items), comma, colon)|, Balanced(rest, depth, false, false))
  {
    hide Print, PrintItems;
    PrintOfArray(items, comma, colon);
    var body, tail := PrintItems(items, comma, colon), [0x5D] + rest;
    assert Print(Array(items), comma, colon) + rest == [0x5B] + (body + tail);
    Step(0x5B, body + tail);
    Step(0x5D, rest);
  }

  lemma PassBraces(members: Members, comma: seq<Byte>, colon: seq<Byte>, rest: seq<Byte>, depth: int)
    requires depth > 0
    requires Balanced(PrintMembers(members, comma, colon) + ([CLOSE] + rest), depth + 1, false, false)
          == Shift(|PrintMembers(members, comma, colon)|, Balanced([CLOSE] + rest, depth + 1, false, false))
    ensures Balanced(Print(Object(members), comma, colon) + rest, depth, false, false)
         == Shift(|Print(Object(members), comma, colon)|, Balanced(rest, depth, false, false))
  {
    hide Print, PrintMembers;
    PrintOfObject(members, comma, colon);
    var body, tail := PrintMembers(members, comma, colon), [CLOSE] + rest;
    assert Print(Object(members), comma, colon) + rest == [OPEN] + (body + tail);
    Step(OPEN, body + tail);
    Step(CLOSE, rest);
  }

  lemma PrintOfArray(items: Items, comma: seq<Byte>, colon: seq<Byte>)
    ensures Print(Array(items), comma, colon) == [0x5B] + (PrintItems(items, comma, colon) + [0x5D])
  {
  }

  lemma PrintOfObject(members: Members, comma: seq<Byte>, colon: seq<Byte>)
    ensures Print(Object(members), comma, colon) == [OPEN] + (PrintMembers(members, comma, colon) + [CLOSE])
  {
  }

  lemma {:induction false} PassItems(items: Items, comma: seq<Byte>, colon: seq<Byte>, rest: seq<Byte>, depth: int)
    requires ValidItems(items) && Neutral(comma) && Neutral(colon) && depth > 0
    ensures Balanced(PrintItems(items, comma, colon) + rest, depth, false, false)
         == Shift(|PrintItems(items, comma, colon)|, Balanced(rest, depth, false, false))
    decreases items, 1
  {
    hide Balanced, Print;
    match items
    case NoItems =>
      assert PrintItems(items, comma, colon) + rest == rest;
    case Item(head, tail) =>
      var gap := if tail.NoItems? then [] else comma;
      var after := PrintItems(tail, comma, colon) + rest;
      assert PrintItems(items, comma, colon) + rest == Print(head, comma, colon) + (gap + after);
      PassJson(head, comma, colon, gap + after, depth);
      PassNeutral(gap, after, depth);
      PassItems(tail, comma, colon, rest, depth);
  }

  lemma {:induction false} PassMembers(members: Members, comma: seq<Byte>, colon: seq<Byte>, rest: seq<Byte>,
                                       depth: int)
    requires ValidMembers(members) && Neutral(comma) && Neutral(colon) && depth > 0
    ensures Balanced(PrintMembers(members, comma, colon) + rest, depth, false, false)
         == Shift(|PrintMembers(members, comma, colon)|, Balanced(rest, depth, false, false))
    decreases members, 1
  {
    hide Balanced, Print, PrintText;
    match members
    case NoMembers =>
      assert PrintMembers(members, comma, colon) + rest == rest;
    case Member(key, value, more) =>
      var gap := if more.NoMembers? then [] else comma;
      var after := PrintMembers(more, comma, colon) + rest;
      var printed := Print(value, comma, colon);
      assert PrintMembers(members, comma, colon) + rest == PrintText(key) + (colon + (printed + (gap + after)));
      PassText(key, colon + (printed + (gap + after)), depth);
      PassNeutral(colon, printed + (gap + after), depth);
      PassJson(value, comma, colon, gap + after, depth);
      PassNeutral(gap, after, depth);
      PassMembers(more, comma, colon, rest, depth);
  }

  /** The scan of a printed object followed by any bytes ends exactly where the object does. */
  lemma ObjectIsBalanced(members: Members, comma: seq<Byte>, colon: seq<Byte>, rest: seq<Byte>)
    requires ValidMembers(members) && Neutral(comma) && Neutral(colon)
    ensures var printed := Print(Object(members), comma, colon);
      Balanced(printed + rest, 0, false, false) == Some(|printed|)
  {
    hide Print, PrintMembers;
    PrintOfObject(members, comma, colon);
    var body, tail := PrintMembers(members, comma, colon), [CLOSE] + rest;
    assert Print(Object(members), comma, colon) + rest == [OPEN] + (body + tail);
    Step(OPEN, body + tail);
    Step(CLOSE, rest);
    PassMembers(members, comma, colon, tail, 1);
  }

  lemma {:induction false} SkipsSpaces(spaces: seq<Byte>, b: Byte, rest: seq<Byte>)
    requires Spaces(spaces) && !IsSpace(b)
    ensures SkipSpaces(spaces + ([b] + rest)) == Some(|spaces|)
  {
    if spaces == [] {
      assert spaces + ([b] + rest) == [b] + rest;
    } else {
      assert (spaces + ([b] + rest))[1..] == spaces[1..] + ([b] + rest);
      SkipsSpaces(spaces[1..], b, rest);
    }
  }

  /** From just after the key: spaces, a colon, spaces, a printed object and any bytes. */
  lemma AfterKeyRoundTrip(s1: seq<Byte>, s2: seq<Byte>, members: Members, comma: seq<Byte>, colon: seq<Byte>,
                          rest: seq<Byte>)
    requires Spaces(s1) && Spaces(s2) && ValidMembers(members) && Neutral(comma) && Neutral(colon)
    ensures AfterKey(s1 + ([COLON] + (s2 + (Print(Object(members), comma, colon) + rest))))
         == Ok(Print(Object(members), comma, colon))
  {
    hide Print, SkipSpaces, Balanced, PrintMembers;
    var printed := Print(Object(members), comma, colon);
    PrintOfObject(members, comma, colon);
    var inner := PrintMembers(members, comma, colon) + [CLOSE];
    var body := printed + rest;
    var value := s2 + body;
    var text := s1 + ([COLON] + value);
    assert body == [OPEN] + (inner + rest);
    SkipsSpaces(s1, COLON, value);
    SkipsSpaces(s2, OPEN, inner + rest);
    assert text[|s1|] == COLON && text[|s1| + 1..] == value;
    assert value[|s2|] == OPEN && value[|s2|..] == body;
    ObjectIsBalanced(members, comma, colon, rest);
    assert body[..|printed|] == printed;
  }

  /** Round trip: the scanner returns the printed object that follows the first place where the
      quoted key occurs, whatever comes before and after. */
  lemma LiteralRoundTrip(before: seq<Byte>, key: seq<Byte>, s1: seq<Byte>, s2: seq<Byte>, members: Members,
                         comma: seq<Byte>, colon: seq<Byte>, rest: seq<Byte>, line: seq<Byte>)
    requires Spaces(s1) && Spaces(s2) && ValidMembers(members) && Neutral(comma) && Neutral(colon)
    requires line == before + (Anchor(key)
                     + (s1 + ([COLON] + (s2 + (Print(Object(members), comma, colon) + rest)))))
    requires Find(line, Anchor(key)) == Some(|before|)
    ensures Literal(line, key) == Ok(Print(Object(members), comma, colon))
  {
    hide Print, Find, AfterKey, Anchor;
    AfterKeyRoundTrip(s1, s2, members, comma, colon, rest);
    assert line[|before| + |Anchor(key)|..] == s1 + ([COLON] + (s2 + (Print(Object(members), comma, colon) + rest)));
  }

  // ---------------------------------------------------------------- which value is returned

  /** Where the scan from just after the key meets its brace. */
  function BraceAfter(text: seq<Byte>): Option<nat>
  {
    var toColon := SkipSpaces(text);
    if toColon.None? || |text| <= toColon.value || text[toColon.value] != COLON then None
    else Shift(toColon.value + 1, SkipSpaces(text[toColon.value + 1..]))
  }

  /** Where in the line the returned bytes begin. */
  function Whence(line: seq<Byte>, key: seq<Byte>): Option<nat>
  {
    var at := Find(line, Anchor(key));
    if at.None? || |line| < at.value + |Anchor(key)| then None
    else Shift(at.value + |Anchor(key)|, BraceAfter(line[at.value + |Anchor(key)|..]))
  }

  /** What is returned is a stretch of the line from there on. */
  lemma LiteralIsStretch(line: seq<Byte>, key: seq<Byte>)
    requires Literal(line, key).Ok?
    ensures Whence(line, key).Some? && Whence(line, key).value <= |line|
    ensures Literal(line, key).value <= line[Whence(line, key).value..]
  {
    hide Find, SkipSpaces, Balanced;
    var after := Find(line, Anchor(key)).value + |Anchor(key)|;
    var text := line[after..];
    var toColon := SkipSpaces(text).value;
    SkipSpacesInside(text[toColon + 1..]);
    assert text[toColon + 1..] == line[after + toColon + 1..];
    var toBrace := SkipSpaces(text[toColon + 1..]).value;
    assert text[toColon + 1..][toBrace..] == line[after + toColon + 1 + toBrace..];
  }

  // ---------------------------------------------------------------- what each error means

  /** Skipping stops at the first byte that is not blank, and at nothing in a blank text. */
  lemma {:induction false} SkipStopsAt(text: seq<Byte>, n: nat)
    ensures SkipSpaces(text) == Some(n) <==> n < |text| && Spaces(text[..n]) && !IsSpace(text[n])
    ensures SkipSpaces(text).None? <==> Spaces(text)
  {
    if text != [] && IsSpace(text[0]) {
      assert text == [text[0]] + text[1..];
      BlankRest(text[0], text[1..]);
      if n >= |text| {
        SkipStopsAt(text[1..], 0);
        SkipSpacesInside(text);
      } else if n > 0 {
        SkipStopsAt(text[1..], n - 1);
        assert text[..n] == [text[0]] + text[1..][..n - 1];
        BlankRest(text[0], text[1..][..n - 1]);
      } else {
        SkipStopsAt(text[1..], 0);
      }
    }
  }

  lemma BlankRest(b: Byte, rest: seq<Byte>)
    requires IsSpace(b)
    ensures Spaces([b] + rest) <==> Spaces(rest)
  {
    forall i | 0 <= i < |rest|
      ensures ([b] + rest)[i + 1] == rest[i]
    {
    }
  }

  /** The quoted key stands at a place of the line. */
  predicate KeyAt(line: seq<Byte>, key: seq<Byte>, i: nat)
  {
    i <= |line| && [QUOTE] + key + [QUOTE] <= line[i..]
  }

  /** The line has no quoted key, and only then is the key reported absent. */
  lemma AbsentKeyIsReported(line: seq<Byte>, key: seq<Byte>)
    ensures Literal(line, key) == Err(KeyAbsent) <==> forall i :: !KeyAt(line, key, i)
  {
    hide Find, AfterKey;
    FindInside(line, Anchor(key));
    forall i | KeyAt(line, key, i)
      ensures Find(line, Anchor(key)).Some?
    {
      FindIsFirst(line, Anchor(key), i);
    }
    if Find(line, Anchor(key)).Some? {
      assert KeyAt(line, key, Find(line, Anchor(key)).value);
      AfterKeyFindsKey(line[Find(line, Anchor(key)).value + |Anchor(key)|..]);
    }
  }

  lemma AfterKeyFindsKey(text: seq<Byte>)
    ensures AfterKey(text) != Err(KeyAbsent)
  {
    hide SkipSpaces, Balanced;
  }

  /** After the key, the first byte that is not blank must be a colon; after the colon, the first that is
      not blank must open an object; and running off the line anywhere is a read past its end. */
  lemma AfterKeyErrors(text: seq<Byte>, n: nat, m: nat)
    requires n < |text| && Spaces(text[..n]) && !IsSpace(text[n])
    ensures text[n] != COLON ==> AfterKey(text) == Err(NoColon)
    ensures text[n] == COLON && Spaces(text[n + 1..]) ==> AfterKey(text) == Err(IndexOutOfRange)
    ensures text[n] == COLON && n + 1 + m < |text| && Spaces(text[n + 1..][..m]) && !IsSpace(text[n + 1 + m]) ==>
              if text[n + 1 + m] != OPEN then AfterKey(text) == Err(NotAnObject)
              else AfterKey(text).Err? ==> AfterKey(text) == Err(IndexOutOfRange)
  {
    SkipStopsAt(text, n);
    SkipStopsAt(text[n + 1..], m);
    hide SkipSpaces, Balanced, Spaces;
  }

  /** Nothing but blanks after the key is a read past the end. */
  lemma BlankAfterKey(text: seq<Byte>)
    requires Spaces(text)
    ensures AfterKey(text) == Err(IndexOutOfRange)
  {
    SkipStopsAt(text, 0);
    hide SkipSpaces, Balanced;
  }

  lemma {:induction false} SkippedAreSpaces(text: seq<Byte>, k: nat)
    requires SkipSpaces(text).Some? && k < SkipSpaces(text).value
    ensures k < |text| && IsSpace(text[k])
  {
    if k > 0 {
      SkippedAreSpaces(text[1..], k - 1);
    }
  }

  /** There is no quote between the key and the brace. */
  lemma NoQuoteBefore(text: seq<Byte>, k: nat)
    requires BraceAfter(text).Some? && k < BraceAfter(text).value && k < |text|
    ensures text[k] != QUOTE
  {
    hide SkipSpaces;
    var toColon := SkipSpaces(text).value;
    if k < toColon {
      SkippedAreSpaces(text, k);
    } else if k > toColon {
      SkippedAreSpaces(text[toColon + 1..], k - toColon - 1);
    }
  }

  lemma {:induction false} FindIsFirst(text: seq<Byte>, pattern: seq<Byte>, i: nat)
    requires i <= |text| && pattern <= text[i..]
    ensures Find(text, pattern).Some? && Find(text, pattern).value <= i
  {
    if !(pattern <= text) {
      assert text[1..][i - 1..] == text[i..];
      FindIsFirst(text[1..], pattern, i - 1);
    }
  }

  /** Starting from an earlier occurrence of the quoted key leads to an earlier brace. */
  lemma EarlierKeyEndsEarlier(line: seq<Byte>, key: seq<Byte>, i: nat, brace: nat)
    requires i + |Anchor(key)| <= brace && i + |Anchor(key)| <= |line| && Anchor(key) <= line[i..]
    requires Whence(line, key) == Some(brace)
    ensures Find(line, Anchor(key)) == Some(i)
  {
    hide *;
    FindIsFirst(line, Anchor(key), i);
    FindInside(line, Anchor(key));
    AnchorEndsInQuote(line, key, i);
    var at := Find(line, Anchor(key)).value;
    if at < i {
      NoQuoteBetween(line, key, at, i + |Anchor(key)| - 1, brace);
    }
  }

  /** There is no quote between the end of the first occurrence of the quoted key and the brace. */
  lemma NoQuoteBetween(line: seq<Byte>, key: seq<Byte>, at: nat, k: nat, brace: nat)
    requires Find(line, Anchor(key)) == Some(at) && Whence(line, key) == Some(brace)
    requires at + |Anchor(key)| <= k < brace && k < |line|
    ensures line[k] != QUOTE
  {
    hide Find, BraceAfter, Anchor;
    var after := at + |Anchor(key)|;
    TailByte(line, after, k);
    NoQuoteBefore(line[after..], k - after);
  }

  lemma AnchorEndsInQuote(line: seq<Byte>, key: seq<Byte>, i: nat)
    requires i + |Anchor(key)| <= |line| && Anchor(key) <= line[i..]
    ensures |Anchor(key)| > 0 && line[i + |Anchor(key)| - 1] == QUOTE
  {
    var m := |Anchor(key)|;
    assert line[i..][m - 1] == Anchor(key)[m - 1];
  }

  lemma TailByte(line: seq<Byte>, after: nat, k: nat)
    requires after <= k < |line|
    ensures line[after..][k - after] == line[k]
  {
  }

  /** The scanner returns the object that follows a given occurrence of the quoted key, from that very
      place, exactly when the line holds no earlier occurrence. */
  lemma KeyedValueIffFirst(before: seq<Byte>, key: seq<Byte>, s1: seq<Byte>, s2: seq<Byte>, members: Members,
                           comma: seq<Byte>, colon: seq<Byte>, rest: seq<Byte>, line: seq<Byte>)
    requires Spaces(s1) && Spaces(s2) && ValidMembers(members) && Neutral(comma) && Neutral(colon)
    requires line == before + (Anchor(key)
                     + (s1 + ([COLON] + (s2 + (Print(Object(members), comma, colon) + rest)))))
    ensures Literal(line, key) == Ok(Print(Object(members), comma, colon))
            && Whence(line, key) == Some(|before| + |Anchor(key)| + |s1| + 1 + |s2|)
       <==> Find(line, Anchor(key)) == Some(|before|)
  {
    hide Print, Find, AfterKey, BraceAfter;
    var tail := s1 + ([COLON] + (s2 + (Print(Object(members), comma, colon) + rest)));
    assert line[|before|..] == Anchor(key) + tail;
    assert line[|before| + |Anchor(key)|..] == tail;
    if Find(line, Anchor(key)) == Some(|before|) {
      LiteralRoundTrip(before, key, s1, s2, members, comma, colon, rest, line);
      BraceOfTail(s1, s2, members, comma, colon, rest);
    }
    if Whence(line, key) == Some(|before| + |Anchor(key)| + |s1| + 1 + |s2|) {
      EarlierKeyEndsEarlier(line, key, |before|, |before| + |Anchor(key)| + |s1| + 1 + |s2|);
    }
  }

  lemma BraceOfTail(s1: seq<Byte>, s2: seq<Byte>, members: Members, comma: seq<Byte>, colon: seq<Byte>, rest: seq<Byte>)
    requires Spaces(s1) && Spaces(s2)
    ensures BraceAfter(s1 + ([COLON] + (s2 + (Print(Object(members), comma, colon) + rest)))) == Some(|s1| + 1 + |s2|)
  {
    hide Print, SkipSpaces, PrintMembers;
    PrintOfObject(members, comma, colon);
    var inner := PrintMembers(members, comma, colon) + [CLOSE];
    var body := Print(Object(members), comma, colon) + rest;
    var value := s2 + body;
    assert body == [OPEN] + (inner + rest);
    SkipsSpaces(s1, COLON, value);
    SkipsSpaces(s2, OPEN, inner + rest);
    assert (s1 + ([COLON] + value))[|s1| + 1..] == value;
  }

  const COMMA: seq<Byte> := [0x2C]

  lemma PrintOne(b: Byte, v: Json)
    ensures Print(Object(Member([Plain(b)], v, NoMembers)), COMMA, [COLON])
         == [OPEN, QUOTE, b, QUOTE, COLON] + (Print(v, COMMA, [COLON]) + [CLOSE])
  {
    PrintLetter(b);
    PrintOfObject(Member([Plain(b)], v, NoMembers), COMMA, [COLON]);
  }

  lemma PrintTwo(b: Byte, v: Json, c: Byte, w: Json)
    ensures Print(Object(Member([Plain(b)], v, Member([Plain(c)], w, NoMembers))), COMMA, [COLON])
         == [OPEN, QUOTE, b, QUOTE, COLON] + (Print(v, COMMA, [COLON])
            + ([0x2C, QUOTE, c, QUOTE, COLON] + (Print(w, COMMA, [COLON]) + [CLOSE])))
  {
    hide Print, PrintText;
    PrintLetter(b);
    PrintLetter(c);
    var last := Member([Plain(c)], w, NoMembers);
    PrintOfObject(Member([Plain(b)], v, last), COMMA, [COLON]);
    var pv, pw := Print(v, COMMA, [COLON]), Print(w, COMMA, [COLON]);
    assert PrintMembers(last, COMMA, [COLON]) == [QUOTE, c, QUOTE] + ([COLON] + pw);
    hide PrintMembers;
    PrintFirst([Plain(b)], v, last);
  }

  lemma PrintFirst(key: seq<Piece>, v: Json, more: Members)
    requires more.Member?
    ensures PrintMembers(Member(key, v, more), COMMA, [COLON])
         == PrintText(key) + ([COLON] + (Print(v, COMMA, [COLON]) + (COMMA + PrintMembers(more, COMMA, [COLON]))))
  {
    hide Print, PrintText;
  }

  lemma PrintLetter(b: Byte)
    ensures PrintText([Plain(b)]) == [QUOTE, b, QUOTE]
  {
    assert PrintPieces([Plain(b)]) == [b];
  }

  lemma FindPast(b: Byte, text: seq<Byte>, pattern: seq<Byte>, n: nat)
    requires Find(text, pattern) == Some(n) && |pattern| > 1
    requires b != pattern[0] || (text != [] && text[0] != pattern[1])
    ensures Find([b] + text, pattern) == Some(n + 1)
  {
    assert ([b] + text)[1..] == text;
    assert ([b] + text)[0] == b && (text != [] ==> ([b] + text)[1] == text[0]);
  }

  lemma FindHere(pattern: seq<Byte>, rest: seq<Byte>)
    ensures Find(pattern + rest, pattern) == Some(0)
  {
  }

  lemma SixBytes(a: Byte, b: Byte, c: Byte, d: Byte, e: Byte, f: Byte, t: seq<Byte>)
    ensures [a, b, c, d, e, f] + t == [a] + ([b] + ([c] + ([d] + ([e] + ([f] + t)))))
  {
  }

  /** The quoted key is first met inside the value of the first member. */
  lemma FindNested(rest: seq<Byte>)
    ensures Find([OPEN, QUOTE, 0x61, QUOTE, COLON, OPEN] + ([QUOTE, 0x6B, QUOTE] + rest), [QUOTE, 0x6B, QUOTE])
         == Some(6)
  {
    hide Find;
    var p := [QUOTE, 0x6B, QUOTE];
    var t := p + rest;
    FindHere(p, rest);
    FindPast(OPEN, t, p, 0);
    FindPast(COLON, [OPEN] + t, p, 1);
    FindPast(QUOTE, [COLON] + ([OPEN] + t), p, 2);
    FindPast(0x61, [QUOTE] + ([COLON] + ([OPEN] + t)), p, 3);
    FindPast(QUOTE, [0x61] + ([QUOTE] + ([COLON] + ([OPEN] + t))), p, 4);
    FindPast(OPEN, [QUOTE] + ([0x61] + ([QUOTE] + ([COLON] + ([OPEN] + t)))), p, 5);
    SixBytes(OPEN, QUOTE, 0x61, QUOTE, COLON, OPEN, t);
  }

  const LETTER_A: Byte := 0x61
  const LETTER_B: Byte := 0x62
  const LETTER_K: Byte := 0x6B

  const NESTED := Object(NoMembers)
  const TOP := Object(Member([Plain(LETTER_B)], Atom([0x30]), NoMembers))
  const INNER := Object(Member([Plain(LETTER_K)], NESTED, NoMembers))

  /** The line {"a":{"k":{}},"k":{"b":0}}. */
  function ShadowedLine(): seq<Byte>
  {
    Print(Object(Member([Plain(LETTER_A)], INNER, Member([Plain(LETTER_K)], TOP, NoMembers))), COMMA, [COLON])
  }

  lemma ShadowedLineBytes() returns (rest: seq<Byte>)
    ensures ShadowedLine() == [OPEN, QUOTE, LETTER_A, QUOTE, COLON, OPEN]
                            + ([QUOTE, LETTER_K, QUOTE] + ([COLON] + ([OPEN, CLOSE] + rest)))
  {
    PrintNested();
    hide Print;
    PrintOne(LETTER_K, NESTED);
    PrintTwo(LETTER_A, INNER, LETTER_K, TOP);
    rest := [CLOSE] + ([0x2C, QUOTE, LETTER_K, QUOTE, COLON] + (Print(TOP, COMMA, [COLON]) + [CLOSE]));
  }

  lemma PrintNested()
    ensures Print(NESTED, COMMA, [COLON]) == [OPEN, CLOSE]
  {
  }

  /** The search is textual, so the value found need not be a top-level one: on the line above the
      nested member answers for the key k. */
  lemma NestedKeyAnswersFirst()
    ensures Literal(ShadowedLine(), [LETTER_K]) == Ok(Print(NESTED, COMMA, [COLON]))
    ensures Literal(ShadowedLine(), [LETTER_K]) != Ok(Print(TOP, COMMA, [COLON]))
  {
    PrintNested();
    PrintOne(LETTER_B, Atom([0x30]));
    hide Print, Find, Literal, ShadowedLine;
    var rest := ShadowedLineBytes();
    var before := [OPEN, QUOTE, LETTER_A, QUOTE, COLON, OPEN];
    assert Anchor([LETTER_K]) == [QUOTE, LETTER_K, QUOTE];
    var after := [COLON] + ([OPEN, CLOSE] + rest);
    FindNested(after);
    assert after == [] + ([COLON] + ([] + (Print(NESTED, COMMA, [COLON]) + rest)));
    LiteralRoundTrip(before, [LETTER_K], [], [], NoMembers, COMMA, [COLON], rest, ShadowedLine());
  }
}
