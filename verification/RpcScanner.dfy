/**
 * The ledger client's completeness scanner: when an accumulated reply counts as a whole JSON text,
 * however the network split it.
 */
module RpcScanner {
  import opened Common

  const RESPONSE_MAX := 16384

  // ---- JSON texts, as far as brackets and strings go ---------------------------------------------

  /**
   * A bracketed text: an opening bracket, pieces, a closing bracket. A piece is a string literal,
   * a nested bracketed text, or anything without quotes and brackets (numbers, literals, commas,
   * colons, white space). Every JSON object or array is of this shape.
   */
  datatype Nested = Nested(square: bool, pieces: List)
  datatype List = End | More(piece: Piece, rest: List)
  datatype Piece =
    | Quoted(body: seq<Unit>)
    | Inner(text: Nested)
    | Plain(chars: string)

  /** One unit of a string literal: a character, or a backslash and the character it escapes. */
  datatype Unit = Bare(c: char) | Escaped(c: char)

  predicate IsBracketOrQuote(c: char) {
    c == '{' || c == '[' || c == '}' || c == ']' || c == '"'
  }

  predicate WellFormed(list: List) {
    match list
    case End => true
    case More(piece, rest) =>
      && WellFormed(rest)
      && match piece
         case Quoted(body) => ProperBody(body)
         case Inner(text) => WellFormed(text.pieces)
         case Plain(chars) => NoBracketOrQuote(chars)
  }

  function Body(units: seq<Unit>): string {
    if units == [] then ""
    else UnitText(units[0]) + Body(units[1..])
  }

  function UnitText(unit: Unit): string {
    match unit
    case Bare(c) => [c]
    case Escaped(c) => ['\\', c]
  }

  function PieceText(piece: Piece): string {
    match piece
    case Quoted(body) => "\"" + Body(body) + "\""
    case Inner(text) => Text(text)
    case Plain(chars) => chars
  }

  function PiecesText(list: List): string {
    match list
    case End => ""
    case More(piece, rest) => PieceText(piece) + PiecesText(rest)
  }

  function Text(n: Nested): string {
    (if n.square then "[" else "{") + PiecesText(n.pieces) + (if n.square then "]" else "}")
  }

  /** JSON texts: string bodies as written between their quotes, and the white space at every place that may have some. */
  datatype Json =
    | Literal(chars: string)
    | Str(body: seq<Unit>)
    | Arr(items: Items)
    | Obj(members: Members)
  datatype Items = NoItems(gap: string) | Item(before: string, value: Json, after: string, more: Items)
  datatype Members =
    | NoMembers(gap: string)
    | Member(before: string, key: seq<Unit>, colon: Colon, value: Json, after: string, more: Members)
  datatype Colon = Colon(before: string, after: string)

  predicate ProperBody(body: seq<Unit>) {
    forall i :: 0 <= i < |body| && body[i].Bare? ==> body[i].c != '"' && body[i].c != '\\'
  }

  predicate NoBracketOrQuote(chars: string) {
    forall i :: 0 <= i < |chars| ==> !IsBracketOrQuote(chars[i])
  }

  /** White space between tokens. */
  predicate Blank(gap: string) {
    forall i :: 0 <= i < |gap| ==> gap[i] in {' ', '\t', '\n', '\r'}
  }

  /** String bodies escape their quotes and backslashes; numbers and literals contain neither. */
  predicate Proper(v: Json) {
    match v
    case Literal(chars) => NoBracketOrQuote(chars)
    case Str(body) => ProperBody(body)
    case Arr(items) => ProperItems(items)
    case Obj(members) => ProperMembers(members)
  }

  predicate ProperItems(items: Items) {
    match items
    case NoItems(gap) => Blank(gap)
    case Item(before, value, after, more) => Blank(before) && Proper(value) && Blank(after) && ProperItems(more)
  }

  predicate ProperMembers(members: Members) {
    match members
    case NoMembers(gap) => Blank(gap)
    case Member(before, key, colon, value, after, more) =>
      && Blank(before) && ProperBody(key) && Blank(colon.before) && Blank(colon.after)
      && Proper(value) && Blank(after) && ProperMembers(more)
  }

  function Print(v: Json): string {
    match v
    case Literal(chars) => chars
    case Str(body) => "\"" + Body(body) + "\""
    case Arr(items) => "[" + PrintItems(items) + "]"
    case Obj(members) => "{" + PrintMembers(members) + "}"
  }

  function PrintItems(items: Items): string {
    match items
    case NoItems(gap) => gap
    case Item(before, value, after, more) =>
      before + (Print(value) + (after + ((if more.NoItems? then "" else ",") + PrintItems(more))))
  }

  function PrintMembers(members: Members): string {
    match members
    case NoMembers(gap) => gap
    case Member(before, key, colon, value, after, more) =>
      before + (("\"" + Body(key) + "\"") + (PrintColon(colon) + (Print(value)
      + (after + ((if more.NoMembers? then "" else ",") + PrintMembers(more))))))
  }

  function PrintColon(colon: Colon): string {
    colon.before + ":" + colon.after
  }

  /** The same text as a bracketed one. */
  function Shape(v: Json): Piece {
    match v
    case Literal(chars) => Plain(chars)
    case Str(body) => Quoted(body)
    case Arr(items) => Inner(Nested(true, ShapeItems(items)))
    case Obj(members) => Inner(Nested(false, ShapeMembers(members)))
  }

  function ShapeItems(items: Items): List {
    match items
    case NoItems(gap) => More(Plain(gap), End)
    case Item(before, value, after, more) =>
      More(Plain(before), More(Shape(value), More(Plain(after),
        More(Plain(if more.NoItems? then "" else ","), ShapeItems(more)))))
  }

  function ShapeMembers(members: Members): List {
    match members
    case NoMembers(gap) => More(Plain(gap), End)
    case Member(before, key, colon, value, after, more) =>
      More(Plain(before), More(Quoted(key), More(Plain(PrintColon(colon)), More(Shape(value), More(Plain(after),
        More(Plain(if more.NoMembers? then "" else ","), ShapeMembers(more)))))))
  }

  /** A JSON text is the text of its shape, so what holds of bracketed texts holds of it. */
  lemma {:induction false} PrintIsShape(v: Json)
    ensures Print(v) == PieceText(Shape(v))
  {
    match v
    case Literal(chars) =>
    case Str(body) =>
    case Arr(items) => ItemsAreShape(items);
    case Obj(members) => MembersAreShape(members);
  }

  lemma {:induction false} ItemsAreShape(items: Items)
    ensures PrintItems(items) == PiecesText(ShapeItems(items))
  {
    match items
    case NoItems(_) =>
    case Item(before, value, after, more) =>
      PrintIsShape(value);
      ItemsAreShape(more);
      var rest := More(Plain(if more.NoItems? then "" else ","), ShapeItems(more));
      assert PiecesText(rest) == (if more.NoItems? then "" else ",") + PrintItems(more);
      ThreePieces(Plain(before), Shape(value), Plain(after), rest);
  }

  lemma {:induction false} MembersAreShape(members: Members)
    ensures PrintMembers(members) == PiecesText(ShapeMembers(members))
  {
    match members
    case NoMembers(_) =>
    case Member(before, key, colon, value, after, more) =>
      PrintIsShape(value);
      MembersAreShape(more);
      var rest := More(Plain(if more.NoMembers? then "" else ","), ShapeMembers(more));
      var tail := More(Shape(value), More(Plain(after), rest));
      ThreePieces(Plain(before), Quoted(key), Plain(PrintColon(colon)), tail);
      assert PiecesText(rest) == (if more.NoMembers? then "" else ",") + PrintMembers(more);
      assert PiecesText(More(Plain(after), rest)) == after + PiecesText(rest);
      assert PiecesText(tail) == Print(value) + PiecesText(More(Plain(after), rest));
  }

  lemma ThreePieces(a: Piece, b: Piece, c: Piece, rest: List)
    ensures PiecesText(More(a, More(b, More(c, rest)))) == PieceText(a) + (PieceText(b) + (PieceText(c) + PiecesText(rest)))
  {
    var last := More(c, rest);
    var middle := More(b, last);
    assert PiecesText(last) == PieceText(c) + PiecesText(rest);
    assert PiecesText(middle) == PieceText(b) + PiecesText(last);
  }

  lemma {:induction false} ShapeWellFormed(v: Json)
    requires Proper(v)
    ensures WellFormed(More(Shape(v), End))
  {
    match v
    case Literal(chars) =>
    case Str(body) =>
    case Arr(items) => ItemsWellFormed(items);
    case Obj(members) => MembersWellFormed(members);
  }

  lemma {:induction false} ItemsWellFormed(items: Items)
    requires ProperItems(items)
    ensures WellFormed(ShapeItems(items))
  {
    match items
    case NoItems(_) =>
    case Item(before, value, after, more) =>
      ShapeWellFormed(value);
      ItemsWellFormed(more);
      var rest := More(Plain(if more.NoItems? then "" else ","), ShapeItems(more));
      assert WellFormed(rest) && WellFormed(More(Plain(after), rest));
  }

  lemma {:induction false} MembersWellFormed(members: Members)
    requires ProperMembers(members)
    ensures WellFormed(ShapeMembers(members))
  {
    match members
    case NoMembers(_) =>
    case Member(before, key, colon, value, after, more) =>
      ShapeWellFormed(value);
      MembersWellFormed(more);
      var rest := More(Plain(if more.NoMembers? then "" else ","), ShapeMembers(more));
      assert WellFormed(rest) && WellFormed(More(Plain(after), rest));
      var tail := More(Shape(value), More(Plain(after), rest));
      assert WellFormed(tail) && WellFormed(More(Plain(PrintColon(colon)), tail));
  }

  // ---- the scanner -----------------------------------------------------------------------------------

  /** The three loop variables; `done` once the depth came back to 0. */
  datatype Scan = Scan(depth: int, inString: bool, escaped: bool, done: bool)

  const START := Scan(0, false, false, false)

  function Step(s: Scan, c: char): Scan {
    if s.done then s
    else if s.inString then
      if s.escaped then s.(escaped := false)
      else if c == '\\' then s.(escaped := true)
      else if c == '"' then s.(inString := false)
      else s
    else if c == '"' then s.(inString := true)
    else if c == '{' || c == '[' then s.(depth := s.depth + 1)
    else if c == '}' || c == ']' then s.(depth := s.depth - 1, done := s.depth - 1 == 0)
    else s
  }

  function ScanText(s: Scan, text: string): Scan
    decreases |text|
  {
    if text == "" then s else ScanText(Step(s, text[0]), text[1..])
  }

  predicate Complete(text: string) {
    ScanText(START, text).done
  }

  method ResponseLooksComplete(text: string) returns (complete: bool)
    ensures complete == Complete(text)
  {
    if |text| == 0 {
      return false;
    }
    var depth := 0;
    var inString, escaped := false, false;
    assert text[0..] == text;
    for i := 0 to |text|
      invariant ScanText(Scan(depth, inString, escaped, false), text[i..]) == ScanText(START, text)
    {
      var c := text[i];
      ghost var before := Scan(depth, inString, escaped, false);
      assert text[i..][1..] == text[i + 1..];
      if inString {
        if escaped {
          escaped := false;
        } else if c == '\\' {
          escaped := true;
        } else if c == '"' {
          inString := false;
        }
        continue;
      }
      if c == '"' {
        inString := true;
      } else if c == '{' || c == '[' {
        depth := depth + 1;
      } else if c == '}' || c == ']' {
        depth := depth - 1;
        if depth == 0 {
          DoneStays(Step(before, c), text[i + 1..]);
          return true;
        }
      }
    }
    return false;
  }

  lemma {:induction false} DoneStays(s: Scan, text: string)
    requires s.done
    ensures ScanText(s, text) == s
    decreases |text|
  {
    if text != "" {
      DoneStays(s, text[1..]);
    }
  }

  lemma {:induction false} ScanAppend(s: Scan, a: string, b: string)
    ensures ScanText(s, a + b) == ScanText(ScanText(s, a), b)
    decreases |a|
  {
    if a == "" {
      assert a + b == b;
    } else {
      assert (a + b)[1..] == a[1..] + b;
      ScanAppend(Step(s, a[0]), a[1..], b);
    }
  }

  // ---- no miscounting --------------------------------------------------------------------------------

  /** No prefix of `text` scanned from `s` completes. */
  predicate Undone(s: Scan, text: string)
    decreases |text|
  {
    !s.done && (text == "" || Undone(Step(s, text[0]), text[1..]))
  }

  lemma {:induction false} UndoneAppend(s: Scan, a: string, b: string)
    requires Undone(s, a)
    requires Undone(ScanText(s, a), b)
    ensures Undone(s, a + b)
    decreases |a|
  {
    if a == "" {
      assert a + b == b;
    } else {
      assert (a + b)[1..] == a[1..] + b;
      UndoneAppend(Step(s, a[0]), a[1..], b);
    }
  }

  lemma {:induction false} UndonePrefix(s: Scan, text: string, k: nat)
    requires Undone(s, text) && k <= |text|
    ensures !ScanText(s, text[..k]).done
    decreases |text|
  {
    if k > 0 {
      UndonePrefix(Step(s, text[0]), text[1..], k - 1);
      assert text[..k][1..] == text[1..][..k - 1];
    }
  }

  lemma UnitNeutral(s: Scan, unit: Unit)
    requires s.inString && !s.escaped && !s.done
    requires unit.Bare? ==> unit.c != '"' && unit.c != '\\'
    ensures ScanText(s, UnitText(unit)) == s && Undone(s, UnitText(unit))
  {
    match unit
    case Bare(c) =>
      Single(s, c);
    case Escaped(c) =>
      Single(s.(escaped := true), c);
      assert ['\\', c][1..] == [c];
  }

  lemma {:induction false} BodyNeutral(s: Scan, body: seq<Unit>)
    requires s.inString && !s.escaped && !s.done
    requires ProperBody(body)
    ensures ScanText(s, Body(body)) == s && Undone(s, Body(body))
    decreases |body|
  {
    if body != [] {
      BodyNeutral(s, body[1..]);
      var first, rest := UnitText(body[0]), Body(body[1..]);
      UnitNeutral(s, body[0]);
      ScanAppend(s, first, rest);
      UndoneAppend(s, first, rest);
    }
  }

  lemma {:induction false} PlainNeutral(s: Scan, chars: string)
    requires !s.inString && !s.done
    requires NoBracketOrQuote(chars)
    ensures ScanText(s, chars) == s && Undone(s, chars)
    decreases |chars|
  {
    if chars != "" {
      PlainNeutral(s, chars[1..]);
    }
  }

  /** Inside an open bracket, any pieces leave the scanner as it was and never complete. */
  lemma {:induction false} PiecesNeutral(s: Scan, list: List)
    requires !s.inString && !s.escaped && !s.done && s.depth >= 1 && WellFormed(list)
    ensures ScanText(s, PiecesText(list)) == s && Undone(s, PiecesText(list))
    decreases list, 1
  {
    match list
    case End =>
    case More(piece, rest) =>
      PieceNeutral(s, piece, list);
      PiecesNeutral(s, rest);
      ScanAppend(s, PieceText(piece), PiecesText(rest));
      UndoneAppend(s, PieceText(piece), PiecesText(rest));
  }

  lemma {:induction false} PieceNeutral(s: Scan, piece: Piece, list: List)
    requires !s.inString && !s.escaped && !s.done && s.depth >= 1
    requires list.More? && list.piece == piece && WellFormed(list)
    ensures ScanText(s, PieceText(piece)) == s && Undone(s, PieceText(piece))
    decreases list, 0
  {
    match piece
    case Quoted(body) =>
      var inside := s.(inString := true);
      BodyNeutral(inside, body);
      Single(s, '"');
      Single(inside, '"');
      ScanAppend(s, "\"", Body(body));
      UndoneAppend(s, "\"", Body(body));
      ScanAppend(s, "\"" + Body(body), "\"");
      UndoneAppend(s, "\"" + Body(body), "\"");
    case Inner(text) =>
      BracketedScan(s, text);
      var inside := s.(depth := s.depth + 1);
      var open, close := if text.square then '[' else '{', if text.square then ']' else '}';
      PiecesNeutral(inside, text.pieces);
      Single(s, open);
      Single(inside, close);
      ScanAppend(s, [open], PiecesText(text.pieces));
      UndoneAppend(s, [open], PiecesText(text.pieces));
      ScanAppend(s, [open] + PiecesText(text.pieces), [close]);
      UndoneAppend(s, [open] + PiecesText(text.pieces), [close]);
    case Plain(chars) =>
      PlainNeutral(s, chars);
  }

  lemma BracketedScan(s: Scan, n: Nested)
    ensures
      var open, close := if n.square then '[' else '{', if n.square then ']' else '}';
      Text(n) == [open] + PiecesText(n.pieces) + [close]
  {
  }

  lemma Single(s: Scan, c: char)
    ensures ScanText(s, [c]) == Step(s, c)
    ensures !s.done && !Step(s, c).done ==> Undone(s, [c])
  {
    assert [c][1..] == "";
  }

  /**
   * For every bracketed text behind any white space: no proper prefix looks complete, and the
   * whole text does.
   */
  lemma CompleteExactly(lead: string, n: Nested, k: nat)
    requires WellFormed(n.pieces)
    requires NoBracketOrQuote(lead)
    requires k <= |lead + Text(n)|
    ensures Complete((lead + Text(n))[..k]) <==> k == |lead + Text(n)|
  {
    var open, close := if n.square then '[' else '{', if n.square then ']' else '}';
    var inside := START.(depth := 1);
    var start, upTo := lead + [open], lead + [open] + PiecesText(n.pieces);
    PlainNeutral(START, lead);
    Single(START, open);
    ScanAppend(START, lead, [open]);
    UndoneAppend(START, lead, [open]);
    PiecesNeutral(inside, n.pieces);
    ScanAppend(START, start, PiecesText(n.pieces));
    UndoneAppend(START, start, PiecesText(n.pieces));
    Single(inside, close);
    ScanAppend(START, upTo, [close]);
    var whole := lead + Text(n);
    assert whole == upTo + [close];
    if k < |whole| {
      UndonePrefix(START, upTo, k);
      assert whole[..k] == upTo[..k];
    } else {
      assert whole[..k] == whole;
    }
  }

  // ---- accumulation -------------------------------------------------------------------------------------

  datatype Progress = Progress(received: string, complete: bool, failed: bool)

  const NOTHING := Progress("", false, false)

  /** A fragment is kept as long as the buffer has room for it and a terminator. */
  function Accumulate(p: Progress, fragment: string): Progress {
    if |p.received| + |fragment| < RESPONSE_MAX then
      var received := p.received + fragment;
      Progress(received, p.complete || Complete(received), p.failed)
    else p.(failed := true)
  }

  /** The reply fields of the ledger client that receiving touches. */
  class Reply {
    var response: array<char>
    var responseLength: nat
    var complete: bool
    var failed: bool

    ghost predicate Valid()
      reads this, response
    {
      response.Length == RESPONSE_MAX && responseLength < RESPONSE_MAX
    }

    ghost function View(): Progress
      reads this, response
      requires Valid()
    {
      Progress(response[..responseLength], complete, failed)
    }

    constructor ()
      ensures Valid() && fresh(response) && View() == NOTHING
    {
      response := new char[RESPONSE_MAX](_ => NUL);
      responseLength, complete, failed := 0, false, false;
    }

    /** One received fragment. */
    method Receive(fragment: string)
      requires Valid()
      modifies this, response
      ensures Valid() && response == old(response)
      ensures View() == Accumulate(old(View()), fragment)
    {
      if responseLength + |fragment| < response.Length {
        ghost var before := response[..responseLength];
        forall i | 0 <= i < |fragment| {
          response[responseLength + i] := fragment[i];
        }
        responseLength := responseLength + |fragment|;
        assert response[..responseLength] == before + fragment;
        response[responseLength] := NUL;
        assert response[..responseLength] == before + fragment;
        var looksComplete := ResponseLooksComplete(response[..responseLength]);
        if looksComplete {
          complete := true;
        }
      } else {
        failed := true;
      }
    }
  }

  function Concat(fragments: seq<string>): string {
    if fragments == [] then "" else Concat(fragments[..|fragments| - 1]) + fragments[|fragments| - 1]
  }

  function ReceiveAll(fragments: seq<string>): Progress {
    if fragments == [] then NOTHING
    else Accumulate(ReceiveAll(fragments[..|fragments| - 1]), fragments[|fragments| - 1])
  }

  /**
   * A JSON text that fits the buffer, split into fragments in any way: the reply is complete after
   * exactly those fragments that end the text, and nothing fails.
   */
  lemma {:induction false} AnySplitCompletes(lead: string, n: Nested, fragments: seq<string>)
    requires WellFormed(n.pieces)
    requires NoBracketOrQuote(lead)
    requires |lead + Text(n)| < RESPONSE_MAX
    requires |Concat(fragments)| <= |lead + Text(n)| && Concat(fragments) == (lead + Text(n))[..|Concat(fragments)|]
    ensures
      var p := ReceiveAll(fragments);
      && p.received == Concat(fragments) && !p.failed
      && (p.complete <==> Concat(fragments) == lead + Text(n))
  {
    var whole := lead + Text(n);
    if fragments == [] {
      CompleteExactly(lead, n, 0);
      assert whole[..0] == "" && Text(n) != "";
    } else {
      var earlier := fragments[..|fragments| - 1];
      var before, after := Concat(earlier), Concat(fragments);
      assert before == after[..|before|] == whole[..|before|];
      AnySplitCompletes(lead, n, earlier);
      CompleteExactly(lead, n, |after|);
      CompleteExactly(lead, n, |before|);
      assert whole[..|whole|] == whole;
    }
  }

  /** The same, said of JSON texts: any object or array, with any white space before it and anywhere in it, split anyhow. */
  lemma JsonCompletes(lead: string, v: Json, fragments: seq<string>)
    requires (v.Arr? || v.Obj?) && Proper(v) && Blank(lead)
    requires |lead + Print(v)| < RESPONSE_MAX
    requires Concat(fragments) <= lead + Print(v)
    ensures !ReceiveAll(fragments).failed
    ensures ReceiveAll(fragments).complete <==> Concat(fragments) == lead + Print(v)
  {
    PrintIsShape(v);
    ShapeWellFormed(v);
    AnySplitCompletes(lead, Shape(v).text, fragments);
  }

  // ---- any text at all ------------------------------------------------------------------------------------

  /** What stands behind the closing quote; nothing if there is none. */
  function BehindString(text: string): (rest: string)
    ensures |rest| <= |text|
  {
    if text == "" then ""
    else if text[0] == '"' then text[1..]
    else if text[0] == '\\' && |text| >= 2 then BehindString(text[2..])
    else BehindString(text[1..])
  }

  /** The text without its string literals. */
  function WithoutStrings(text: string): string
    decreases |text|
  {
    if text == "" then ""
    else if text[0] == '"' then WithoutStrings(BehindString(text[1..]))
    else [text[0]] + WithoutStrings(text[1..])
  }

  /** Brackets opened less brackets closed. */
  function Level(s: string): int {
    if s == "" then 0
    else Level(s[1..]) + (if s[0] in {'{', '['} then 1 else if s[0] in {'}', ']'} then -1 else 0)
  }

  /** A closing bracket with which as many brackets have been closed as opened, `open` of them before the text. */
  predicate ClosesAt(s: string, open: int, k: nat) {
    k < |s| && s[k] in {'}', ']'} && open + Level(s[..k + 1]) == 0
  }

  ghost predicate Closes(s: string, open: int) {
    exists k: nat :: ClosesAt(s, open, k)
  }

  lemma LevelOne(c: char)
    ensures Level([c]) == if c in {'{', '['} then 1 else if c in {'}', ']'} then -1 else 0
  {
    assert [c][1..] == "";
  }

  lemma ClosesLater(s: string, open: int, k: nat)
    requires s != ""
    ensures ClosesAt(s, open, k + 1) <==> ClosesAt(s[1..], open + Level(s[..1]), k)
  {
    assert s[..1][1..] == "" && s[..1][0] == s[0];
    if k + 1 < |s| {
      assert s[..k + 2][1..] == s[1..][..k + 1] && s[..k + 2][0] == s[0];
    }
  }

  /** A string literal is skipped whole; one that does not end is never complete. */
  lemma {:induction false} StringSkipped(depth: int, text: string)
    ensures ScanText(Scan(depth, true, false, false), text).done
         == ScanText(Scan(depth, false, false, false), BehindString(text)).done
    decreases |text|
  {
    if text != "" && text[0] != '"' {
      if text[0] == '\\' && |text| >= 2 {
        StringSkipped(depth, text[2..]);
        assert text[1..][1..] == text[2..];
      } else if text[0] != '\\' {
        StringSkipped(depth, text[1..]);
      }
    }
  }

  lemma {:induction false} DoneWhenClosed(depth: int, text: string)
    ensures ScanText(Scan(depth, false, false, false), text).done <==> Closes(WithoutStrings(text), depth)
    decreases |text|
  {
    var s := Scan(depth, false, false, false);
    if text == "" {
      assert WithoutStrings(text) == "" && ScanText(s, text) == s;
    } else if text[0] == '"' {
      assert Step(s, text[0]) == Scan(depth, true, false, false);
      StringSkipped(depth, text[1..]);
      DoneWhenClosed(depth, BehindString(text[1..]));
      assert WithoutStrings(text) == WithoutStrings(BehindString(text[1..]));
      assert ScanText(s, text) == ScanText(Step(s, text[0]), text[1..]);
    } else {
      var left, c := WithoutStrings(text), text[0];
      var first := depth + Level(left[..1]);
      assert left[..1] == [c] && left[1..] == WithoutStrings(text[1..]);
      LevelOne(c);
      DoneWhenClosed(first, text[1..]);
      assert ScanText(s, text) == ScanText(Step(s, c), text[1..]);
      if ClosesAt(left, depth, 0) {
        assert Step(s, c).done;
        DoneStays(Step(s, c), text[1..]);
      } else {
        if k: nat :| ClosesAt(left[1..], first, k) {
          ClosesLater(left, depth, k);
        }
        if k: nat :| ClosesAt(left, depth, k) {
          ClosesLater(left, depth, k - 1);
        }
      }
    }
  }

  /**
   * Any text, JSON or not, looks complete exactly when, its string literals left out, some closing
   * bracket is the one with which as many brackets have been closed as opened.
   */
  lemma CompleteMeans(text: string)
    ensures Complete(text) <==> Closes(WithoutStrings(text), 0)
  {
    DoneWhenClosed(0, text);
  }

  /**
   * Whatever arrives: a fragment is appended as long as there is room for it and a terminator in
   * 16384 bytes, one that is not appended is a failure, and the reply is complete exactly when what was
   * kept looks complete.
   */
  lemma {:induction false} ReceiveExactly(fragments: seq<string>, fragment: string)
    ensures
      var before, after := ReceiveAll(fragments), ReceiveAll(fragments + [fragment]);
      && |before.received| < 16384
      && (|before.received| + |fragment| < 16384 ==>
            after.received == before.received + fragment && after.failed == before.failed)
      && (|before.received| + |fragment| >= 16384 ==> after.received == before.received && after.failed)
      && (before.complete <==> Closes(WithoutStrings(before.received), 0))
    decreases |fragments|
  {
    var before := ReceiveAll(fragments);
    assert (fragments + [fragment])[..|fragments|] == fragments;
    CompleteMeans(before.received);
    if fragments == [] {
      assert WithoutStrings("") == "";
    } else {
      var last := |fragments| - 1;
      ReceiveExactly(fragments[..last], fragments[last]);
      assert fragments[..last] + [fragments[last]] == fragments;
      var earlier := ReceiveAll(fragments[..last]);
      CompleteMeans(earlier.received);
      ScanAppend(START, earlier.received, fragments[last]);
      if earlier.complete {
        DoneStays(ScanText(START, earlier.received), fragments[last]);
      }
    }
  }
}
