/**
 The string-scalar scanner (model-invoker/prepared_provider_injection_shape_v1.go).

 It walks the bytes of a JSON text and checks only its string literals: each must close, each \u
 escape must have four hex digits, and surrogate escapes must come in adjacent high/low pairs
 (RFC 8259 sections 7 and 8.2).  The grammar below says that without an algorithm, and the scanner
 is proved to accept exactly the byte sequences the grammar reads.
 */
module SurrogateScanner {
  import opened Wrappers

  newtype byte = b: int | 0 <= b < 256

  const QUOTE: byte := 0x22
  const BACKSLASH: byte := 0x5c
  const LOWER_U: byte := 0x75

  function Nibble(b: byte): Option<nat> {
    if 0x30 <= b <= 0x39 then Some((b - 0x30) as nat)
    else if 0x61 <= b <= 0x66 then Some((b - 0x61) as nat + 10)
    else if 0x41 <= b <= 0x46 then Some((b - 0x41) as nat + 10)
    else None
  }

  // ---------------------------------------------------------- the grammar

  /** One unit of a string literal's inside. */
  datatype Piece =
    | Plain(b: byte)
    | Escape(b: byte)
    | Unicode(d0: byte, d1: byte, d2: byte, d3: byte)
  {
    predicate Valid() {
      match this
      case Plain(b) => b != QUOTE && b != BACKSLASH
      case Escape(b) => b != LOWER_U
      case Unicode(a, b, c, d) => Nibble(a).Some? && Nibble(b).Some? && Nibble(c).Some? && Nibble(d).Some?
    }

    function Length(): nat { match this case Plain(_) => 1 case Escape(_) => 2 case Unicode(_, _, _, _) => 6 }

    /** The 16-bit unit a \u escape denotes. */
    function Unit(): (u: nat)
      requires Unicode? && Valid()
    {
      ((Nibble(d0).value * 16 + Nibble(d1).value) * 16 + Nibble(d2).value) * 16 + Nibble(d3).value
    }

    predicate High() { Valid() && Unicode? && 0xd800 <= Unit() <= 0xdbff }
    predicate Low() { Valid() && Unicode? && 0xdc00 <= Unit() <= 0xdfff }

    /** The piece stands in the bytes at position i. */
    predicate At(raw: seq<byte>, i: nat) {
      && i + Length() <= |raw|
      && match this
         case Plain(b) => raw[i] == b
         case Escape(b) => raw[i] == BACKSLASH && raw[i + 1] == b
         case Unicode(a, b, c, d) => raw[i] == BACKSLASH && raw[i + 1] == LOWER_U && raw[i + 2..i + 6] == [a, b, c, d]
    }
  }

  /** Every surrogate belongs to an adjacent pair, high before low. */
  predicate Paired(pieces: seq<Piece>) {
    && (forall i :: 0 <= i < |pieces| && pieces[i].High() ==> i + 1 < |pieces| && pieces[i + 1].Low())
    && (forall i :: 0 <= i < |pieces| && pieces[i].Low() ==> i > 0 && pieces[i - 1].High())
  }

  predicate ValidPieces(pieces: seq<Piece>) { (forall p :: p in pieces ==> p.Valid()) && Paired(pieces) }

  /** The pieces stand one after the other from i up to j. */
  predicate Spells(raw: seq<byte>, i: nat, pieces: seq<Piece>, j: nat)
    decreases |pieces|
  {
    if pieces == [] then i == j
    else pieces[0].At(raw, i) && Spells(raw, i + pieces[0].Length(), pieces[1..], j)
  }

  function Width(pieces: seq<Piece>): nat { if pieces == [] then 0 else pieces[0].Length() + Width(pieces[1..]) }

  datatype Part = Other(b: byte) | Literal(pieces: seq<Piece>)

  /** A text is bytes outside literals, none of them a quote, and closed literals. */
  predicate Reads(raw: seq<byte>, i: nat, parts: seq<Part>)
    decreases |parts|
  {
    if parts == [] then i == |raw|
    else
      i < |raw| &&
      match parts[0]
      case Other(b) => b != QUOTE && raw[i] == b && Reads(raw, i + 1, parts[1..])
      case Literal(pieces) =>
        var end := i + 1 + Width(pieces);
        && raw[i] == QUOTE && ValidPieces(pieces) && Spells(raw, i + 1, pieces, end)
        && end < |raw| && raw[end] == QUOTE && Reads(raw, end + 1, parts[1..])
  }

  ghost predicate WellFormed(raw: seq<byte>) { exists parts :: Reads(raw, 0, parts) }

  // ----------------------------------------------- what the scanner decides

  function PieceAt(raw: seq<byte>, i: nat): Option<Piece>
  {
    if i + 6 > |raw| || raw[i] != BACKSLASH || raw[i + 1] != LOWER_U then None
    else
      var p := Unicode(raw[i + 2], raw[i + 3], raw[i + 4], raw[i + 5]);
      if p.Valid() then Some(p) else None
  }

  predicate Outside(raw: seq<byte>, i: nat)
    decreases |raw| - i
  {
    if i >= |raw| then i == |raw|
    else if raw[i] != QUOTE then Outside(raw, i + 1)
    else Inside(raw, i + 1)
  }

  predicate Inside(raw: seq<byte>, i: nat)
    decreases |raw| - i
  {
    if i >= |raw| then false
    else if raw[i] == QUOTE then Outside(raw, i + 1)
    else if raw[i] != BACKSLASH then Inside(raw, i + 1)
    else if i + 1 >= |raw| then false
    else if raw[i + 1] != LOWER_U then Inside(raw, i + 2)
    else match PieceAt(raw, i)
      case None => false
      case Some(p) =>
        if p.High() then
          (match PieceAt(raw, i + 6) case None => false case Some(q) => q.Low() && Inside(raw, i + 12))
        else !p.Low() && Inside(raw, i + 6)
  }

  // ------------------------------------------------------------- the code

  method UnicodeEscape(raw: seq<byte>, start: nat) returns (unit: nat, ok: bool)
    ensures ok <==> PieceAt(raw, start).Some?
    ensures ok ==> unit == PieceAt(raw, start).value.Unit()
  {
    if start + 6 > |raw| || raw[start] != BACKSLASH || raw[start + 1] != LOWER_U {
      return 0, false;
    }
    unit := 0;
    for index := start + 2 to start + 6
      invariant forall k :: start + 2 <= k < index ==> Nibble(raw[k]).Some?
      invariant unit == HexValue(raw, start + 2, index - (start + 2))
    {
      match Nibble(raw[index])
      case None => return 0, false;
      case Some(nibble) => unit := unit * 16 + nibble;
    }
    HexUnrolled(raw, start + 2);
    ok := true;
  }

  lemma HexUnrolled(raw: seq<byte>, k: nat)
    requires k + 4 <= |raw| && forall i :: k <= i < k + 4 ==> Nibble(raw[i]).Some?
    ensures HexValue(raw, k, 4) == Unicode(raw[k], raw[k + 1], raw[k + 2], raw[k + 3]).Unit()
  {
    assert HexValue(raw, k, 1) == Nibble(raw[k]).value;
    assert HexValue(raw, k, 2) == HexValue(raw, k, 1) * 16 + Nibble(raw[k + 1]).value;
    assert HexValue(raw, k, 3) == HexValue(raw, k, 2) * 16 + Nibble(raw[k + 2]).value;
  }

  function HexValue(raw: seq<byte>, start: nat, n: nat): nat
    requires start + n <= |raw|
    requires forall k :: start <= k < start + n ==> Nibble(raw[k]).Some?
  {
    if n == 0 then 0 else HexValue(raw, start, n - 1) * 16 + Nibble(raw[start + n - 1]).value
  }

  predicate Continuation(b: byte) { 0x80 <= b <= 0xbf }

  /** How far decoding one rune moves: the length of a valid UTF-8 sequence, one byte otherwise. */
  function RuneSize(raw: seq<byte>, i: nat): (size: nat)
    requires i < |raw|
    ensures 1 <= size <= 4 && i + size <= |raw|
    ensures forall k :: i < k < i + size ==> Continuation(raw[k])
  {
    var b := raw[i];
    var more := |raw| - i - 1;
    if 0xc2 <= b <= 0xdf && more >= 1 && Continuation(raw[i + 1]) then 2
    else if 0xe0 <= b <= 0xef && more >= 2 && Continuation(raw[i + 1]) && Continuation(raw[i + 2])
            && (b == 0xe0 ==> raw[i + 1] >= 0xa0) && (b == 0xed ==> raw[i + 1] <= 0x9f) then 3
    else if 0xf0 <= b <= 0xf4 && more >= 3
            && Continuation(raw[i + 1]) && Continuation(raw[i + 2]) && Continuation(raw[i + 3])
            && (b == 0xf0 ==> raw[i + 1] >= 0x90) && (b == 0xf4 ==> raw[i + 1] <= 0x8f) then 4
    else 1
  }

  /** Skipping a whole rune misses no quote and no backslash. */
  lemma {:induction false} SkipPlain(raw: seq<byte>, i: nat, n: nat)
    requires i + n <= |raw| && forall k :: i <= k < i + n ==> raw[k] != QUOTE && raw[k] != BACKSLASH
    ensures Inside(raw, i) == Inside(raw, i + n)
    decreases n
  {
    if n > 0 {
      SkipPlain(raw, i + 1, n - 1);
    }
  }

  /** The nested loop: it reads no byte out of range, ends, and accepts exactly the well-formed texts. */
  method Validate(raw: seq<byte>) returns (ok: bool)
    ensures ok <==> WellFormed(raw)
  {
    ScannerReadsGrammar(raw);
    hide WellFormed, RuneSize;
    var index := 0;
    while index < |raw|
      invariant index <= |raw| && Outside(raw, 0) == Outside(raw, index)
    {
      if raw[index] != QUOTE {
        index := index + 1;
        continue;
      }
      index := index + 1;
      while true
        invariant index <= |raw| && Outside(raw, 0) == Inside(raw, index)
        decreases |raw| - index
      {
        if index >= |raw| {
          return false;
        }
        if raw[index] == QUOTE {
          index := index + 1;
          break;
        }
        if raw[index] == BACKSLASH {
          if index + 1 >= |raw| {
            return false;
          }
          if raw[index + 1] != LOWER_U {
            index := index + 2;
            continue;
          }
          var unit, valid := UnicodeEscape(raw, index);
          if !valid {
            return false;
          }
          if 0xd800 <= unit <= 0xdbff {
            var low, paired := UnicodeEscape(raw, index + 6);
            if !paired || low < 0xdc00 || low > 0xdfff {
              return false;
            }
            index := index + 12;
          } else if 0xdc00 <= unit <= 0xdfff {
            return false;
          } else {
            index := index + 6;
          }
        } else {
          SkipPlain(raw, index, RuneSize(raw, index));
          index := index + RuneSize(raw, index);
        }
      }
    }
    return true;
  }

  // ---------------------------------------------- the scanner and the grammar

  lemma PieceAtSpelled(raw: seq<byte>, i: nat)
    ensures PieceAt(raw, i).Some? ==> PieceAt(raw, i).value.Valid() && PieceAt(raw, i).value.At(raw, i)
    ensures forall p: Piece :: p.Unicode? && p.Valid() && p.At(raw, i) ==> PieceAt(raw, i) == Some(p)
  {
    if i + 6 <= |raw| {
      assert raw[i + 2..i + 6] == [raw[i + 2], raw[i + 3], raw[i + 4], raw[i + 5]];
    }
  }

  /** The one or two pieces the scanner passes in one turn. */
  function Turn(raw: seq<byte>, i: nat): seq<Piece>
    requires Inside(raw, i) && raw[i] != QUOTE
  {
    if raw[i] != BACKSLASH then [Plain(raw[i])]
    else if raw[i + 1] != LOWER_U then [Escape(raw[i + 1])]
    else if PieceAt(raw, i).value.High() then [PieceAt(raw, i).value, PieceAt(raw, i + 6).value]
    else [PieceAt(raw, i).value]
  }

  lemma OneSpelled(raw: seq<byte>, i: nat, p: Piece)
    requires p.Valid() && !p.High() && !p.Low() && p.At(raw, i)
    ensures ValidPieces([p]) && Width([p]) == p.Length() && Spells(raw, i, [p], i + p.Length())
  {
    assert [p][1..] == [];
  }

  lemma PairSpelled(raw: seq<byte>, i: nat, p: Piece, q: Piece)
    requires p.High() && q.Low() && p.At(raw, i) && q.At(raw, i + 6)
    ensures ValidPieces([p, q]) && Width([p, q]) == 12 && Spells(raw, i, [p, q], i + 12)
  {
    var pair := [p, q];
    assert pair[1..] == [q] && pair[1..][1..] == [];
    assert Width(pair[1..]) == 6 && Spells(raw, i + 6, pair[1..], i + 12);
  }

  lemma TurnSpelled(raw: seq<byte>, i: nat)
    requires Inside(raw, i) && raw[i] != QUOTE
    ensures var head := Turn(raw, i);
            ValidPieces(head) && Width(head) > 0 && Spells(raw, i, head, i + Width(head))
              && Inside(raw, i + Width(head))
  {
    hide ValidPieces, Spells, Width;
    if raw[i] != BACKSLASH {
      OneSpelled(raw, i, Plain(raw[i]));
    } else if raw[i + 1] != LOWER_U {
      OneSpelled(raw, i, Escape(raw[i + 1]));
    } else {
      PieceAtSpelled(raw, i);
      var p := PieceAt(raw, i).value;
      if p.High() {
        PieceAtSpelled(raw, i + 6);
        PairSpelled(raw, i, p, PieceAt(raw, i + 6).value);
      } else {
        OneSpelled(raw, i, p);
      }
    }
  }

  /** The pieces of a literal from i up to its closing quote, after which the walk goes on. */
  ghost predicate Yields(raw: seq<byte>, i: nat, pieces: seq<Piece>) {
    && ValidPieces(pieces) && Spells(raw, i, pieces, i + Width(pieces))
    && i + Width(pieces) < |raw| && raw[i + Width(pieces)] == QUOTE && Outside(raw, i + Width(pieces) + 1)
  }

  lemma TurnYields(raw: seq<byte>, i: nat, head: seq<Piece>, tail: seq<Piece>)
    requires ValidPieces(head) && Spells(raw, i, head, i + Width(head)) && Yields(raw, i + Width(head), tail)
    ensures Yields(raw, i, head + tail)
  {
    JoinSpells(raw, i, head, i + Width(head), tail);
    hide ValidPieces, Spells, Outside, Width;
  }

  /** From inside a literal the scanner's walk yields pieces up to a closing quote. */
  lemma {:induction false} InsideYields(raw: seq<byte>, i: nat) returns (pieces: seq<Piece>)
    requires Inside(raw, i)
    ensures Yields(raw, i, pieces)
    decreases |raw| - i
  {
    if raw[i] == QUOTE {
      pieces := [];
    } else {
      TurnSpelled(raw, i);
      hide Turn, Inside, Yields;
      var head := Turn(raw, i);
      var tail := InsideYields(raw, i + Width(head));
      TurnYields(raw, i, head, tail);
      pieces := head + tail;
    }
  }

  lemma {:induction false} JoinSpells(raw: seq<byte>, i: nat, head: seq<Piece>, next: nat, tail: seq<Piece>)
    requires Spells(raw, i, head, next) && Spells(raw, next, tail, next + Width(tail))
    ensures Spells(raw, i, head + tail, i + Width(head + tail)) && i + Width(head + tail) == next + Width(tail)
    decreases |head|
  {
    if head == [] {
      assert head + tail == tail;
    } else {
      assert (head + tail)[1..] == head[1..] + tail;
      JoinSpells(raw, i + head[0].Length(), head[1..], next, tail);
    }
  }

  lemma {:induction false} OutsideYields(raw: seq<byte>, i: nat) returns (parts: seq<Part>)
    requires Outside(raw, i)
    ensures Reads(raw, i, parts)
    decreases |raw| - i
  {
    if i == |raw| {
      parts := [];
    } else if raw[i] != QUOTE {
      var rest := OutsideYields(raw, i + 1);
      parts := [Other(raw[i])] + rest;
      assert parts[1..] == rest;
    } else {
      var pieces := InsideYields(raw, i + 1);
      var rest := OutsideYields(raw, i + 1 + Width(pieces) + 1);
      parts := [Literal(pieces)] + rest;
      assert parts[1..] == rest;
    }
  }

  lemma DropPieces(pieces: seq<Piece>, n: nat)
    requires ValidPieces(pieces) && 0 < n <= |pieces| && !pieces[n - 1].High()
    ensures ValidPieces(pieces[n..])
  {
    var rest := pieces[n..];
    forall i | 0 <= i < |rest| && rest[i].High() ensures i + 1 < |rest| && rest[i + 1].Low() {
      assert pieces[n + i].High();
    }
    forall i | 0 <= i < |rest| && rest[i].Low() ensures i > 0 && rest[i - 1].High() {
      assert pieces[n + i].Low() && pieces[n + i - 1].High();
    }
  }

  /** What stands first in a literal: a lone piece, or a surrogate pair. */
  lemma FirstPieces(pieces: seq<Piece>)
    requires ValidPieces(pieces) && pieces != []
    ensures pieces[0].Valid() && !pieces[0].Low()
    ensures if pieces[0].High() then |pieces| > 1 && pieces[1].Low() && ValidPieces(pieces[2..])
        else ValidPieces(pieces[1..])
  {
    assert pieces[0] in pieces;
    if pieces[0].High() {
      assert pieces[1].Low() && !pieces[1].High();
      DropPieces(pieces, 2);
    } else {
      DropPieces(pieces, 1);
    }
  }

  /** What the grammar reads inside a literal the scanner passes. */
  lemma {:induction false} PiecesPass(raw: seq<byte>, i: nat, pieces: seq<Piece>, end: nat)
    requires ValidPieces(pieces) && Spells(raw, i, pieces, end)
    requires end < |raw| && raw[end] == QUOTE && Outside(raw, end + 1)
    ensures Inside(raw, i)
    decreases |pieces|
  {
    if pieces != [] {
      FirstPieces(pieces);
      hide ValidPieces;
      PieceAtSpelled(raw, i);
      if pieces[0].High() {
        PieceAtSpelled(raw, i + 6);
        assert pieces[1..][0] == pieces[1] && pieces[1..][1..] == pieces[2..];
        PiecesPass(raw, i + 12, pieces[2..], end);
      } else {
        PiecesPass(raw, i + pieces[0].Length(), pieces[1..], end);
      }
    }
  }

  lemma {:induction false} PartsPass(raw: seq<byte>, i: nat, parts: seq<Part>)
    requires Reads(raw, i, parts)
    ensures Outside(raw, i)
    decreases |parts|
  {
    if parts != [] {
      match parts[0]
      case Other(b) => PartsPass(raw, i + 1, parts[1..]);
      case Literal(pieces) =>
        PartsPass(raw, i + 1 + Width(pieces) + 1, parts[1..]);
        PiecesPass(raw, i + 1, pieces, i + 1 + Width(pieces));
    }
  }

  lemma ScannerReadsGrammar(raw: seq<byte>)
    ensures Outside(raw, 0) <==> WellFormed(raw)
  {
    if Outside(raw, 0) {
      var parts := OutsideYields(raw, 0);
    }
    if WellFormed(raw) {
      var parts :| Reads(raw, 0, parts);
      PartsPass(raw, 0, parts);
    }
  }

  // ------------------------------------------------------- one reading only

  lemma {:induction false} PiecesUnique(raw: seq<byte>, i: nat, a: seq<Piece>, b: seq<Piece>, j: nat, k: nat)
    requires (forall p :: p in a ==> p.Valid()) && (forall p :: p in b ==> p.Valid())
    requires Spells(raw, i, a, j) && Spells(raw, i, b, k)
    requires j < |raw| && raw[j] == QUOTE && k < |raw| && raw[k] == QUOTE
    ensures a == b
    decreases |a|
  {
    if a != [] { assert a[0] in a; }
    if b != [] { assert b[0] in b; }
    if a != [] && b != [] {
      PieceAtSpelled(raw, i);
      assert a[0] == b[0];
      PiecesUnique(raw, i + a[0].Length(), a[1..], b[1..], j, k);
      assert a == [a[0]] + a[1..] && b == [b[0]] + b[1..];
    }
  }

  /** A text has one reading, so an escaped backslash is never also the start of a \u escape. */
  lemma {:induction false} ReadingUnique(raw: seq<byte>, i: nat, a: seq<Part>, b: seq<Part>)
    requires Reads(raw, i, a) && Reads(raw, i, b)
    ensures a == b
    decreases |a|
  {
    if a != [] && b != [] {
      match a[0]
      case Other(x) => ReadingUnique(raw, i + 1, a[1..], b[1..]);
      case Literal(pieces) =>
        PiecesUnique(raw, i + 1, pieces, b[0].pieces, i + 1 + Width(pieces), i + 1 + Width(b[0].pieces));
        ReadingUnique(raw, i + 1 + Width(pieces) + 1, a[1..], b[1..]);
      assert a == [a[0]] + a[1..] && b == [b[0]] + b[1..];
    }
  }
}
