/** How a Wialon IPS message is cut into tokens: `;` separates and disappears, `#` and `|` separate
    and are tokens themselves, and empty tokens are kept. */
module WialonTokens {
  import Sequences

  predicate IsKept(c: char) {
    c == '#' || c == '|'
  }

  predicate IsDelimiter(c: char) {
    c == ';' || IsKept(c)
  }

  predicate Plain(s: string) {
    forall i :: 0 <= i < |s| ==> !IsDelimiter(s[i])
  }

  function FieldEnd(s: string): (k: nat)
    ensures k <= |s| && Plain(s[..k])
    ensures k < |s| ==> IsDelimiter(s[k])
  {
    if s == "" || IsDelimiter(s[0]) then 0
    else
      var k := FieldEnd(s[1..]);
      assert s[..1 + k] == [s[0]] + s[1..][..k];
      1 + k
  }

  function Pieces(msg: string): (ts: seq<string>)
    ensures |ts| >= 1
    decreases |msg|
  {
    var k := FieldEnd(msg);
    if k == |msg| then [msg]
    else if msg[k] == ';' then [msg[..k]] + Pieces(msg[k + 1..])
    else [msg[..k], [msg[k]]] + Pieces(msg[k + 1..])
  }

  /** `parse_string`: the tokeniser gives nothing at all for an empty message. */
  function Tokens(msg: string): seq<string> {
    if msg == "" then [] else Pieces(msg)
  }

  /** The text again: a `;` wherever two tokens meet that no kept delimiter divides. */
  function Text(ts: seq<string>): string {
    if ts == [] then ""
    else if |ts| == 1 then ts[0]
    else if |ts[1]| == 1 && IsKept(ts[1][0]) then ts[0] + ts[1] + Text(ts[2..])
    else ts[0] + ";" + Text(ts[1..])
  }

  predicate IsToken(t: string) {
    Plain(t) || (|t| == 1 && IsKept(t[0]))
  }

  lemma {:induction false} PiecesStartPlain(msg: string)
    ensures Plain(Pieces(msg)[0])
    ensures forall t :: t in Pieces(msg) ==> IsToken(t)
    decreases |msg|
  {
    var k := FieldEnd(msg);
    if k < |msg| {
      PiecesStartPlain(msg[k + 1..]);
    } else {
      assert msg[..k] == msg;
    }
  }

  lemma TextOfMore(field: string, d: char, ts: seq<string>)
    requires ts != [] && Plain(ts[0]) && IsDelimiter(d)
    ensures Text((if d == ';' then [field] else [field, [d]]) + ts) == field + [d] + Text(ts)
  {
    var all := (if d == ';' then [field] else [field, [d]]) + ts;
    if d == ';' {
      assert all[1..] == ts && all[1] == ts[0];
    } else {
      assert all[2..] == ts && all[1] == [d];
    }
  }

  lemma {:induction false} TextOfPieces(msg: string)
    ensures Text(Pieces(msg)) == msg
    decreases |msg|
  {
    var k := FieldEnd(msg);
    if k < |msg| {
      var rest := msg[k + 1..];
      TextOfPieces(rest);
      PiecesStartPlain(rest);
      TextOfMore(msg[..k], msg[k], Pieces(rest));
      assert msg == msg[..k] + [msg[k]] + rest;
    }
  }

  /** No character of a message is lost or confused by the tokeniser. */
  lemma TextOfTokens(msg: string)
    ensures Text(Tokens(msg)) == msg
  {
    TextOfPieces(msg);
  }

  lemma {:induction false} FieldEndOf(field: string, rest: string)
    requires Plain(field) && (rest == "" || IsDelimiter(rest[0]))
    ensures FieldEnd(field + rest) == |field|
    ensures (field + rest)[..|field|] == field && (field + rest)[|field|..] == rest
  {
    if field == "" {
      assert field + rest == rest;
    } else {
      assert (field + rest)[1..] == field[1..] + rest;
      FieldEndOf(field[1..], rest);
    }
  }

  /** One field and the delimiter behind it. */
  lemma PiecesOfField(field: string, d: char, rest: string)
    requires Plain(field) && IsDelimiter(d)
    ensures Pieces(field + [d] + rest) == (if d == ';' then [field] else [field, [d]]) + Pieces(rest)
  {
    var msg := field + [d] + rest;
    assert msg == field + ([d] + rest);
    FieldEndOf(field, [d] + rest);
    assert msg[|field| + 1..] == rest;
  }

  lemma PiecesOfLast(field: string)
    requires Plain(field)
    ensures Pieces(field) == [field]
  {
    FieldEndOf(field, "");
    assert field + "" == field;
  }

  // Printing a message ---------------------------------------------------------------------------

  function Fields(values: seq<string>): string {
    if values == [] then ""
    else if |values| == 1 then values[0]
    else values[0] + [';'] + Fields(values[1..])
  }

  function Blocks(blocks: seq<seq<string>>): string {
    if blocks == [] then ""
    else if |blocks| == 1 then Fields(blocks[0])
    else Fields(blocks[0]) + (['|'] + Blocks(blocks[1..]))
  }

  /** The tokens of blocks: their fields with a bar between two blocks. */
  function Barred(blocks: seq<seq<string>>): seq<string> {
    if blocks == [] then []
    else if |blocks| == 1 then blocks[0]
    else blocks[0] + (["|"] + Barred(blocks[1..]))
  }

  predicate AllPlain(values: seq<string>) {
    forall v :: v in values ==> Plain(v)
  }

  // What stands behind the fields of a block: nothing, or a bar and more.
  function Behind(bar: bool, rest: string): string {
    if bar then ['|'] + rest else ""
  }

  function PiecesBehind(bar: bool, rest: string): seq<string> {
    if bar then ["|"] + Pieces(rest) else []
  }

  lemma PiecesOfLastField(field: string, bar: bool, rest: string)
    requires Plain(field)
    ensures Pieces(field + Behind(bar, rest)) == [field] + PiecesBehind(bar, rest)
  {
    if bar {
      hide Pieces;
      Sequences.Assoc(field, ['|'], rest);
      PiecesOfField(field, '|', rest);
      assert ['|'] == "|";
      assert [field, "|"] + Pieces(rest) == [field] + (["|"] + Pieces(rest));
    } else {
      hide Pieces;
      PiecesOfLast(field);
      assert field + "" == field;
    }
  }

  lemma {:induction false} PiecesOfFields(values: seq<string>, bar: bool, rest: string)
    requires values != [] && AllPlain(values)
    ensures Pieces(Fields(values) + Behind(bar, rest)) == values + PiecesBehind(bar, rest)
    decreases |values|
  {
    if |values| == 1 {
      PiecesOfLastField(values[0], bar, rest);
      assert values == [values[0]];
    } else {
      var more := Fields(values[1..]) + Behind(bar, rest);
      Sequences.Assoc(values[0] + [';'], Fields(values[1..]), Behind(bar, rest));
      PiecesOfField(values[0], ';', more);
      PiecesOfFields(values[1..], bar, rest);
      Sequences.Assoc([values[0]], values[1..], PiecesBehind(bar, rest));
      assert [values[0]] + values[1..] == values;
    }
  }

  lemma {:induction false} PiecesOfBlocks(blocks: seq<seq<string>>)
    requires blocks != []
    requires forall i :: 0 <= i < |blocks| ==> blocks[i] != [] && AllPlain(blocks[i])
    ensures Pieces(Blocks(blocks)) == Barred(blocks)
    decreases |blocks|
  {
    if |blocks| == 1 {
      PiecesOfFields(blocks[0], false, "");
      assert Fields(blocks[0]) + "" == Fields(blocks[0]);
    } else {
      var rest := Blocks(blocks[1..]);
      PiecesOfFields(blocks[0], true, rest);
      PiecesOfBlocks(blocks[1..]);
    }
  }

  lemma PiecesAfterHash(field: string, rest: string)
    requires Plain(field)
    ensures Pieces(field + "#" + rest) == [field, "#"] + Pieces(rest)
  {
    assert "#" == ['#'];
    PiecesOfField(field, '#', rest);
  }

  /** `#cmd#body`, the body being cut on its own. */
  lemma TokensOfMessage(cmd: string, body: string, pieces: seq<string>)
    requires Plain(cmd) && Pieces(body) == pieces
    ensures Tokens("#" + cmd + "#" + body) == ["", "#", cmd, "#"] + pieces
  {
    hide Pieces;
    var rest := cmd + "#" + body;
    PiecesAfterHash(cmd, body);
    PiecesAfterHash("", rest);
    assert "#" + cmd + "#" + body == "" + "#" + rest;
    assert ["", "#"] + ([cmd, "#"] + pieces) == ["", "#", cmd, "#"] + pieces;
  }
}
