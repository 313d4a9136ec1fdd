/** Jumps as bytes (`backends/x86_64.c:2111-2173, 2533-2545`).  A backward jump is encoded at once,
    short when it looks close enough; every other jump gets an empty 32-bit field that is filled in
    when all blocks have their place. */
module Jumps {
  import opened Wrappers
  import opened Bytes
  import Machine

  /** How the code of a block ends. */
  datatype Exit = Falls | Always(target: nat) | OnCondition(cond: Machine.Condition, target: nat)
  {
    predicate Aims() { Always? || OnCondition? }
    function Target(): nat { if Aims() then target else 0 }
  }

  /** The bytes of the straight-line part of a block and the exit after them. */
  datatype Piece = Piece(body: seq<Byte>, exit: Exit)

  datatype Relocation = Relocation(from: nat, to: nat)

  /** The text section while a function is generated: its bytes, where each generated block starts,
      where the open field of a block is and which blocks have one. */
  datatype Text = Text(bytes: seq<Byte>, offsets: map<nat, nat>, fixups: map<nat, nat>, relocations: seq<Relocation>)

  const JMP_REL8: Byte := 0xEB
  const JMP_REL32: Byte := 0xE9
  const ESCAPE: Byte := 0x0F

  /** The condition field of the Jcc opcodes (Intel SDM Vol. 2A, Jcc). */
  function ConditionCode(c: Machine.Condition): Byte {
    match c
    case O => 0
    case NO => 1
    case B => 2
    case C => 2
    case AE => 3
    case E => 4
    case NE => 5
    case BE => 6
    case A => 7
    case S => 8
    case NS => 9
    case PE => 10
    case PO => 11
    case L => 12
    case GE => 13
    case LE => 14
    case G => 15
  }

  predicate Near(relative: int) {
    -128 <= relative <= 127
  }

  /** A jump back over `relative` bytes, measured from its own start. */
  function JumpBack(relative: int): seq<Byte> {
    if Near(relative) then [JMP_REL8] + Little(relative - 2, 1) else [JMP_REL32] + Little(relative - 5, 4)
  }

  /** The opcode bytes of a jump whose field is filled in later. */
  function OpenJump(exit: Exit): seq<Byte>
    requires exit.Aims()
  {
    if exit.Always? then [JMP_REL32] else [ESCAPE, 0x80 + ConditionCode(exit.cond)]
  }

  function EmitPiece(t: Text, b: nat, p: Piece): Text {
    var placed := t.(offsets := t.offsets[b := |t.bytes|], bytes := t.bytes + p.body);
    if p.exit.Falls? then placed
    else if p.exit.Always? && p.exit.target in placed.offsets then
      placed.(bytes := placed.bytes + JumpBack(placed.offsets[p.exit.target] - |placed.bytes|))
    else
      Open(placed, b, p.exit)
  }

  function Open(t: Text, b: nat, exit: Exit): Text
    requires exit.Aims()
  {
    var bytes := t.bytes + OpenJump(exit) + Little(0, 4);
    t.(bytes := bytes, fixups := t.fixups[b := |bytes| - 4], relocations := t.relocations + [Relocation(b, exit.target)])
  }

  type Pieces = map<nat, Piece>

  function PieceOf(pieces: Pieces, b: nat): Piece {
    if b in pieces then pieces[b] else Piece([], Falls)
  }

  function EmitPieces(t: Text, chain: seq<nat>, pieces: Pieces): Text
    decreases |chain|
  {
    if chain == [] then t
    else
      var before := EmitPieces(t, chain[..|chain| - 1], pieces);
      EmitPiece(before, chain[|chain| - 1], PieceOf(pieces, chain[|chain| - 1]))
  }

  function Offset(t: Text, b: nat): nat {
    if b in t.offsets then t.offsets[b] else 0
  }

  function Fixup(t: Text, b: nat): nat {
    if b in t.fixups then t.fixups[b] else 0
  }

  /** Filling in one field. */
  function PatchField(bytes: seq<Byte>, at: nat, field: seq<Byte>): (r: seq<Byte>)
    ensures |r| == |bytes|
    ensures forall i :: 0 <= i < |bytes| ==> r[i] == if at <= i < at + |field| then field[i - at] else bytes[i]
  {
    seq(|bytes|, i requires 0 <= i < |bytes| => if at <= i < at + |field| then field[i - at] else bytes[i])
  }

  function Distance(t: Text, r: Relocation): int {
    Offset(t, r.to) - Fixup(t, r.from) - 4
  }

  /** The bytes after the first `n` relocations. */
  function Patched(t: Text, n: nat): (r: seq<Byte>)
    ensures |r| == |t.bytes|
    decreases n
  {
    if n == 0 || n > |t.relocations| then t.bytes
    else PatchField(Patched(t, n - 1), Fixup(t, t.relocations[n - 1].from), Little(Distance(t, t.relocations[n - 1]), 4))
  }

  // ---- what the machine makes of the bytes -------------------------------------------------------

  /** Where the jump that starts at `site` goes, by Intel SDM Vol. 2A, JMP and Jcc. */
  function Destination(bytes: seq<Byte>, site: nat): Option<int> {
    if site + 2 > |bytes| then None
    else if bytes[site] == JMP_REL8 then Some(site + 2 + Signed(bytes[site + 1..site + 2]))
    else if bytes[site] == JMP_REL32 && site + 5 <= |bytes| then Some(site + 5 + Signed(bytes[site + 1..site + 5]))
    else if bytes[site] == ESCAPE && bytes[site + 1] / 16 == 8 && site + 6 <= |bytes| then
      Some(site + 6 + Signed(bytes[site + 2..site + 6]))
    else None
  }

  /** The two distances that pass the 8-bit test but no longer fit once the length of the jump itself
      is taken off. */
  predicate JustTooFar(relative: int) {
    relative == -127 || relative == -128
  }

  lemma JumpBackLands(before: seq<Byte>, after: seq<Byte>, relative: int)
    requires Fits(relative - 5, 4)
    ensures var bytes := before + JumpBack(relative) + after;
            Destination(bytes, |before|) == Some(|before| + relative) <==> !JustTooFar(relative)
  {
    hide Little, Signed;
    var site := |before|;
    var jump := JumpBack(relative);
    var bytes := before + jump + after;
    assert bytes[site..site + |jump|] == jump;
    assert bytes[site] == jump[0];
    if Near(relative) {
      assert bytes[site + 1..site + 2] == Little(relative - 2, 1);
      SignedRoundTrip(relative - 2, 1);
    } else {
      assert bytes[site + 1..site + 5] == Little(relative - 5, 4);
      SignedRoundTrip(relative - 5, 4);
    }
  }

  // ---- where everything lies ---------------------------------------------------------------------

  predicate Distinct(chain: seq<nat>) {
    forall i, j :: 0 <= i < j < |chain| ==> chain[i] != chain[j]
  }

  /** The end of the code of the `i`th block: the next block starts there. */
  function EndOf(t: Text, chain: seq<nat>, i: nat): nat {
    if i + 1 < |chain| then Offset(t, chain[i + 1]) else |t.bytes|
  }

  function Site(t: Text, b: nat, p: Piece): nat {
    Offset(t, b) + |p.body|
  }

  /** The block's target has its place already when the jump is written. */
  predicate BackAt(p: Piece, chain: seq<nat>, i: nat) {
    p.exit.Always? && p.exit.target in chain[..if i < |chain| then i + 1 else |chain|]
  }

  /** The bytes of one block, from its start to `end`, before any field is filled in. */
  predicate Placed(t: Text, b: nat, p: Piece, back: bool, end: nat) {
    var site := Site(t, b, p);
    && b in t.offsets && site <= end <= |t.bytes| && t.bytes[Offset(t, b)..site] == p.body
    && (b in t.fixups <==> p.exit.Aims() && !back)
    && if !p.exit.Aims() then end == site
       else if back then
         && p.exit.target in t.offsets && Offset(t, p.exit.target) <= site
         && t.bytes[site..end] == JumpBack(Offset(t, p.exit.target) - site)
       else
         && end == site + |OpenJump(p.exit)| + 4 && t.fixups[b] == end - 4
         && t.bytes[site..end - 4] == OpenJump(p.exit)
  }

  /** Relocations and open fields belong together, one for one. */
  ghost predicate Related(t: Text, pieces: Pieces) {
    && (forall r :: r in t.relocations ==> r.from in t.fixups && PieceOf(pieces, r.from).exit.Aims() && r.to == PieceOf(pieces, r.from).exit.target)
    && (forall i, j :: 0 <= i < j < |t.relocations| ==> t.relocations[i].from != t.relocations[j].from)
    && (forall b :: b in t.fixups ==> Relocation(b, if PieceOf(pieces, b).exit.Aims() then PieceOf(pieces, b).exit.target else 0) in t.relocations)
  }

  predicate AllPlaced(t: Text, chain: seq<nat>, pieces: Pieces) {
    forall i :: 0 <= i < |chain| ==> Placed(t, chain[i], PieceOf(pieces, chain[i]), BackAt(PieceOf(pieces, chain[i]), chain, i), EndOf(t, chain, i))
  }

  ghost predicate Written(t: Text, chain: seq<nat>, pieces: Pieces) {
    && (forall b :: b in t.offsets <==> b in chain)
    && (forall b :: b in t.fixups ==> b in chain)
    && AllPlaced(t, chain, pieces)
    && Related(t, pieces)
  }

  /** Writing a block leaves the blocks before it as they are. */
  lemma PlacedStays(t: Text, u: Text, b: nat, p: Piece, back: bool, end: nat)
    requires Placed(t, b, p, back, end)
    requires t.bytes <= u.bytes && b in u.offsets && u.offsets[b] == t.offsets[b]
    requires b in u.fixups <==> b in t.fixups
    requires b in t.fixups ==> u.fixups[b] == t.fixups[b]
    requires back ==> p.exit.Aims() && p.exit.target in u.offsets && u.offsets[p.exit.target] == Offset(t, p.exit.target)
    ensures Placed(u, b, p, back, end)
  {
    var site := Site(t, b, p);
    assert u.bytes[Offset(t, b)..site] == t.bytes[Offset(t, b)..site];
    assert u.bytes[site..end] == t.bytes[site..end];
    if p.exit.Aims() && !back {
      assert u.bytes[site..end - 4] == t.bytes[site..end - 4];
    }
  }

  lemma NewPlaced(t: Text, b: nat, p: Piece)
    requires b !in t.offsets && b !in t.fixups
    requires forall x :: x in t.offsets ==> t.offsets[x] <= |t.bytes|
    ensures var u := EmitPiece(t, b, p);
            var back := p.exit.Always? && (p.exit.target in t.offsets || p.exit.target == b);
            && Placed(u, b, p, back, |u.bytes|) && t.bytes <= u.bytes && u.offsets == t.offsets[b := |t.bytes|]
            && u.fixups == (if p.exit.Aims() && !back then t.fixups[b := |u.bytes| - 4] else t.fixups)
            && u.relocations == (if p.exit.Aims() && !back then t.relocations + [Relocation(b, p.exit.target)] else t.relocations)
  {
    hide JumpBack, OpenJump;
    if p.exit.Falls? {
      assert EmitPiece(t, b, p).bytes[|t.bytes|..|t.bytes| + |p.body|] == p.body;
    } else if p.exit.Always? && (p.exit.target in t.offsets || p.exit.target == b) {
      NewBack(t, b, p);
    } else {
      NewOpen(t, b, p);
    }
  }

  lemma NewBack(t: Text, b: nat, p: Piece)
    requires b !in t.offsets && b !in t.fixups
    requires forall x :: x in t.offsets ==> t.offsets[x] <= |t.bytes|
    requires p.exit.Always? && (p.exit.target in t.offsets || p.exit.target == b)
    ensures var u := EmitPiece(t, b, p);
            && Placed(u, b, p, true, |u.bytes|) && t.bytes <= u.bytes && u.offsets == t.offsets[b := |t.bytes|]
            && u.fixups == t.fixups && u.relocations == t.relocations
  {
    hide JumpBack;
    var u := EmitPiece(t, b, p);
    var site := |t.bytes| + |p.body|;
    var jump := JumpBack(Offset(u, p.exit.target) - site);
    assert u.bytes == t.bytes + p.body + jump;
    Slices(t.bytes, p.body, jump);
  }

  lemma NewOpen(t: Text, b: nat, p: Piece)
    requires b !in t.offsets && b !in t.fixups && p.exit.Aims()
    requires !(p.exit.Always? && (p.exit.target in t.offsets || p.exit.target == b))
    ensures var u := EmitPiece(t, b, p);
            && Placed(u, b, p, false, |u.bytes|) && t.bytes <= u.bytes && u.offsets == t.offsets[b := |t.bytes|]
            && u.fixups == t.fixups[b := |u.bytes| - 4] && u.relocations == t.relocations + [Relocation(b, p.exit.target)]
  {
    hide OpenJump;
    var u := EmitPiece(t, b, p);
    var field := OpenJump(p.exit) + Little(0, 4);
    assert u.bytes == t.bytes + p.body + field;
    Slices(t.bytes, p.body, field);
    var site := |t.bytes| + |p.body|;
    assert u.bytes[site..|u.bytes| - 4] == u.bytes[site..|u.bytes|][..|OpenJump(p.exit)|];
  }

  lemma Slices(a: seq<Byte>, b: seq<Byte>, c: seq<Byte>)
    ensures var s := a + b + c; a <= s && s[|a|..|a| + |b|] == b && s[|a| + |b|..|s|] == c
  {
  }

  // ---- writing the blocks ------------------------------------------------------------------------

  lemma LastIsNew(chain: seq<nat>)
    requires Distinct(chain) && chain != []
    ensures var init := chain[..|chain| - 1]; Distinct(init) && chain[|chain| - 1] !in init
  {
    var init := chain[..|chain| - 1];
    forall i | 0 <= i < |init|
      ensures init[i] != chain[|chain| - 1]
    {
      assert chain[i] != chain[|chain| - 1];
    }
  }

  /** After any number of blocks, each lies where the next one expects it to end. */
  lemma {:induction false} AllWritten(start: seq<Byte>, chain: seq<nat>, pieces: Pieces)
    requires Distinct(chain)
    ensures Written(EmitPieces(Text(start, map[], map[], []), chain, pieces), chain, pieces)
    decreases |chain|
  {
    hide Written, EmitPieces, EmitPiece;
    if chain == [] {
      NothingWritten(start, pieces);
    } else {
      var init := chain[..|chain| - 1];
      var b := chain[|chain| - 1];
      LastIsNew(chain);
      hide Distinct;
      AllWritten(start, init, pieces);
      OneWritten(EmitPieces(Text(start, map[], map[], []), init, pieces), init, b, pieces);
      OneMore(Text(start, map[], map[], []), chain, pieces);
      assert init + [b] == chain;
    }
  }

  lemma OneMore(t: Text, chain: seq<nat>, pieces: Pieces)
    requires chain != []
    ensures var b := chain[|chain| - 1];
            EmitPieces(t, chain, pieces) == EmitPiece(EmitPieces(t, chain[..|chain| - 1], pieces), b, PieceOf(pieces, b))
  {
    hide EmitPiece;
  }

  lemma NothingWritten(start: seq<Byte>, pieces: Pieces)
    ensures Written(EmitPieces(Text(start, map[], map[], []), [], pieces), [], pieces)
  {
    hide Placed, EmitPiece;
  }

  lemma OffsetsInside(t: Text, chain: seq<nat>, pieces: Pieces)
    requires Written(t, chain, pieces)
    ensures forall x :: x in t.offsets ==> t.offsets[x] <= |t.bytes|
  {
    forall x | x in t.offsets
      ensures t.offsets[x] <= |t.bytes|
    {
      var i :| 0 <= i < |chain| && chain[i] == x;
      assert Placed(t, chain[i], PieceOf(pieces, chain[i]), BackAt(PieceOf(pieces, chain[i]), chain, i), EndOf(t, chain, i));
    }
  }

  lemma OneWritten(t: Text, init: seq<nat>, b: nat, pieces: Pieces)
    requires Written(t, init, pieces) && b !in init && Distinct(init)
    ensures Written(EmitPiece(t, b, PieceOf(pieces, b)), init + [b], pieces)
  {
    hide Placed, EmitPiece;
    var p := PieceOf(pieces, b);
    var u := EmitPiece(t, b, p);
    var chain := init + [b];
    OffsetsInside(t, init, pieces);
    NewPlaced(t, b, p);
    forall i | 0 <= i < |chain|
      ensures Placed(u, chain[i], PieceOf(pieces, chain[i]), BackAt(PieceOf(pieces, chain[i]), chain, i), EndOf(u, chain, i))
    {
      if i < |init| {
        OldPlaced(t, u, init, b, pieces, i);
      } else {
        assert chain[..i + 1] == chain;
      }
    }
    NewRelated(t, u, b, pieces, p.exit.Aims() && !(p.exit.Always? && (p.exit.target in t.offsets || p.exit.target == b)));
  }

  lemma OldPlaced(t: Text, u: Text, init: seq<nat>, b: nat, pieces: Pieces, i: nat)
    requires Written(t, init, pieces) && b !in init && i < |init|
    requires t.bytes <= u.bytes && u.offsets == t.offsets[b := |t.bytes|]
    requires u.fixups == t.fixups || (b in u.fixups && u.fixups == t.fixups[b := u.fixups[b]])
    ensures var chain := init + [b]; var p := PieceOf(pieces, init[i]);
            Placed(u, chain[i], p, BackAt(p, chain, i), EndOf(u, chain, i))
  {
    hide Related;
    var chain := init + [b];
    var x := init[i];
    var p := PieceOf(pieces, x);
    assert x in init;
    assert init[..i + 1] == chain[..i + 1];
    var end := EndOf(t, init, i);
    assert Placed(t, x, p, BackAt(p, init, i), end);
    if i + 1 < |init| {
      assert init[i + 1] in init && init[i + 1] in t.offsets;
    }
    assert EndOf(u, chain, i) == end;
    PlacedStays(t, u, x, p, BackAt(p, init, i), end);
  }

  lemma NewRelated(t: Text, u: Text, b: nat, pieces: Pieces, opens: bool)
    requires Related(t, pieces) && b !in t.fixups
    requires opens ==> PieceOf(pieces, b).exit.Aims() && b in u.fixups && u.fixups.Keys == t.fixups.Keys + {b}
                       && u.relocations == t.relocations + [Relocation(b, PieceOf(pieces, b).exit.target)]
    requires !opens ==> u.fixups == t.fixups && u.relocations == t.relocations
    ensures Related(u, pieces)
  {
    if opens {
      var last := Relocation(b, PieceOf(pieces, b).exit.target);
      forall i, j | 0 <= i < j < |u.relocations|
        ensures u.relocations[i].from != u.relocations[j].from
      {
        assert u.relocations[i] == t.relocations[i] && t.relocations[i] in t.relocations;
      }
      forall x | x in u.fixups
        ensures Relocation(x, if PieceOf(pieces, x).exit.Aims() then PieceOf(pieces, x).exit.target else 0) in u.relocations
      {
        if x == b {
          assert u.relocations[|t.relocations|] == last;
        } else {
          assert x in t.fixups;
        }
      }
    }
  }

  // ---- blocks do not overlap ---------------------------------------------------------------------

  /** The code of an earlier block ends before the code of a later one starts. */
  lemma {:induction false} BlocksApart(t: Text, chain: seq<nat>, pieces: Pieces, i: nat, j: nat)
    requires AllPlaced(t, chain, pieces) && i < j < |chain|
    ensures EndOf(t, chain, i) <= Offset(t, chain[j])
    decreases j - i
  {
    hide Placed;
    if i + 1 < j {
      BlocksApart(t, chain, pieces, i, j - 1);
      var p := PieceOf(pieces, chain[j - 1]);
      PlacedBounds(t, chain[j - 1], p, BackAt(p, chain, j - 1), EndOf(t, chain, j - 1));
    }
  }

  lemma PlacedBounds(t: Text, b: nat, p: Piece, back: bool, end: nat)
    requires Placed(t, b, p, back, end)
    ensures b in t.offsets && Offset(t, b) + |p.body| <= end <= |t.bytes| && t.bytes[Offset(t, b)..Site(t, b, p)] == p.body
    ensures b in t.fixups <==> p.exit.Aims() && !back
    ensures !p.exit.Aims() ==> end == Site(t, b, p)
  {
  }

  /** Byte `k` belongs to the open field of block `b`. */
  predicate InField(t: Text, b: nat, k: nat) {
    Fixup(t, b) <= k < Fixup(t, b) + 4
  }

  /** The open field of a block lies within the block. */
  lemma FieldInside(t: Text, chain: seq<nat>, pieces: Pieces, i: nat)
    requires AllPlaced(t, chain, pieces) && i < |chain| && chain[i] in t.fixups
    ensures Fixup(t, chain[i]) + 4 == EndOf(t, chain, i) && Site(t, chain[i], PieceOf(pieces, chain[i])) < Fixup(t, chain[i])
    ensures PieceOf(pieces, chain[i]).exit.Aims()
  {
    assert Placed(t, chain[i], PieceOf(pieces, chain[i]), BackAt(PieceOf(pieces, chain[i]), chain, i), EndOf(t, chain, i));
  }

  /** So a byte of one block is in the open field of no other block: patch windows never overlap. */
  lemma FieldsApart(t: Text, chain: seq<nat>, pieces: Pieces, i: nat, j: nat, k: nat)
    requires AllPlaced(t, chain, pieces) && i < |chain| && j < |chain| && i != j && chain[j] in t.fixups
    requires Offset(t, chain[i]) <= k < EndOf(t, chain, i)
    ensures !InField(t, chain[j], k)
  {
    FieldInside(t, chain, pieces, j);
    if i < j {
      BlocksApart(t, chain, pieces, i, j);
    } else {
      BlocksApart(t, chain, pieces, j, i);
    }
  }

  // ---- filling in the fields ---------------------------------------------------------------------

  lemma {:induction false} PatchedOutside(t: Text, n: nat, k: nat)
    requires k < |t.bytes| && n <= |t.relocations|
    requires forall m :: 0 <= m < n ==> !InField(t, t.relocations[m].from, k)
    ensures Patched(t, n)[k] == t.bytes[k]
    decreases n
  {
    if n > 0 {
      PatchedOutside(t, n - 1, k);
    }
  }

  lemma {:induction false} PatchedInside(t: Text, n: nat, m: nat, k: nat)
    requires k < |t.bytes| && m < n <= |t.relocations| && InField(t, t.relocations[m].from, k)
    requires forall l :: 0 <= l < n && l != m ==> !InField(t, t.relocations[l].from, k)
    ensures Patched(t, n)[k] == Little(Distance(t, t.relocations[m]), 4)[k - Fixup(t, t.relocations[m].from)]
    decreases n
  {
    hide PatchField, Little, Offset, Fixup, Distance;
    if m < n - 1 {
      PatchedInside(t, n - 1, m, k);
    }
  }

  /** The finished bytes. */
  function Finished(t: Text): seq<Byte> {
    Patched(t, |t.relocations|)
  }

  /** The fields of the other blocks do not reach a byte of this one. */
  lemma OthersMiss(t: Text, chain: seq<nat>, pieces: Pieces, i: nat, k: nat, m: nat)
    requires Distinct(chain) && Written(t, chain, pieces) && i < |chain|
    requires Offset(t, chain[i]) <= k < EndOf(t, chain, i)
    requires m < |t.relocations| && t.relocations[m].from != chain[i]
    ensures !InField(t, t.relocations[m].from, k)
  {
    hide AllPlaced;
    assert t.relocations[m] in t.relocations;
    var j :| 0 <= j < |chain| && chain[j] == t.relocations[m].from;
    FieldsApart(t, chain, pieces, i, j, k);
  }

  /** Only the field of its own block changes a byte of a block. */
  lemma OwnByte(t: Text, chain: seq<nat>, pieces: Pieces, i: nat, k: nat)
    requires Distinct(chain) && Written(t, chain, pieces) && i < |chain|
    requires Offset(t, chain[i]) <= k < EndOf(t, chain, i) && k < |t.bytes|
    ensures !(chain[i] in t.fixups && InField(t, chain[i], k)) ==> Finished(t)[k] == t.bytes[k]
    ensures chain[i] in t.fixups && InField(t, chain[i], k) ==>
              Finished(t)[k] == Little(Offset(t, PieceOf(pieces, chain[i]).exit.target) - EndOf(t, chain, i), 4)[k - Fixup(t, chain[i])]
  {
    if chain[i] in t.fixups && InField(t, chain[i], k) {
      OpenByte(t, chain, pieces, i, k);
    } else {
      forall m | 0 <= m < |t.relocations|
        ensures !InField(t, t.relocations[m].from, k)
      {
        hide AllPlaced, InField;
        assert t.relocations[m] in t.relocations;
        if t.relocations[m].from != chain[i] {
          OthersMiss(t, chain, pieces, i, k, m);
        }
      }
      hide Patched, InField, Written;
      PatchedOutside(t, |t.relocations|, k);
    }
  }

  lemma OpenByte(t: Text, chain: seq<nat>, pieces: Pieces, i: nat, k: nat)
    requires Distinct(chain) && Written(t, chain, pieces) && i < |chain|
    requires Offset(t, chain[i]) <= k < EndOf(t, chain, i) && k < |t.bytes|
    requires chain[i] in t.fixups && InField(t, chain[i], k)
    ensures Finished(t)[k] == Little(Offset(t, PieceOf(pieces, chain[i]).exit.target) - EndOf(t, chain, i), 4)[k - Fixup(t, chain[i])]
  {
    hide AllPlaced, Patched;
    var b := chain[i];
    FieldInside(t, chain, pieces, i);
    var m :| 0 <= m < |t.relocations| && t.relocations[m] == Relocation(b, PieceOf(pieces, b).exit.target);
    forall l | 0 <= l < |t.relocations| && l != m
      ensures !InField(t, t.relocations[l].from, k)
    {
      assert t.relocations[l].from != b;
      OthersMiss(t, chain, pieces, i, k, l);
    }
    hide InField;
    PatchedInside(t, |t.relocations|, m, k);
  }

  // ---- the theorem -------------------------------------------------------------------------------

  /** The jump at the end of the `i`th block goes back, at a distance the short form just misses. */
  predicate Missed(t: Text, chain: seq<nat>, pieces: Pieces, i: nat)
    requires i < |chain|
  {
    var p := PieceOf(pieces, chain[i]);
    BackAt(p, chain, i) && JustTooFar(Offset(t, p.exit.target) - Site(t, chain[i], p))
  }

  /** The finished code of one block: its body as emitted, then its jump, which ends where the next
      block starts and goes to its target unless the short form misses. */
  predicate Sound(t: Text, chain: seq<nat>, pieces: Pieces, i: nat)
    requires i < |chain|
  {
    var b := chain[i];
    var p := PieceOf(pieces, b);
    var site := Site(t, b, p);
    && site <= EndOf(t, chain, i) <= |t.bytes|
    && Finished(t)[Offset(t, b)..site] == p.body
    && (p.exit.Falls? ==> EndOf(t, chain, i) == site)
    && (p.exit.Aims() ==> (Destination(Finished(t), site) == Some(Offset(t, p.exit.target)) <==> !Missed(t, chain, pieces, i)))
    && (p.exit.OnCondition? ==> EndOf(t, chain, i) == site + 6)
    && (p.exit.Aims() ==> OpensAs(Finished(t), site, p.exit))
  }

  /** The opcode bytes at `site` are those of the jump. */
  predicate OpensAs(bytes: seq<Byte>, site: nat, exit: Exit)
    requires exit.Aims()
  {
    && site + 1 < |bytes|
    && if exit.Always? then bytes[site] == JMP_REL8 || bytes[site] == JMP_REL32
       else bytes[site] == ESCAPE && bytes[site + 1] == 0x80 + ConditionCode(exit.cond)
  }

  /** After back-patching, every jump lands on its target and every block falls into the next one,
      for all code of less than 2 GiB, except that an unconditional jump back over exactly 127 or 128
      bytes goes astray. */
  lemma JumpsLand(start: seq<Byte>, chain: seq<nat>, pieces: Pieces, i: nat)
    requires Distinct(chain) && i < |chain|
    requires PieceOf(pieces, chain[i]).exit.Aims() ==> PieceOf(pieces, chain[i]).exit.target in chain
    requires |EmitPieces(Text(start, map[], map[], []), chain, pieces).bytes| < 0x7FFF_FFF0
    ensures Sound(EmitPieces(Text(start, map[], map[], []), chain, pieces), chain, pieces, i)
  {
    hide EmitPieces;
    var t := EmitPieces(Text(start, map[], map[], []), chain, pieces);
    AllWritten(start, chain, pieces);
    BlockSound(t, chain, pieces, i);
  }

  lemma BlockSound(t: Text, chain: seq<nat>, pieces: Pieces, i: nat)
    requires Distinct(chain) && Written(t, chain, pieces) && i < |chain|
    requires PieceOf(pieces, chain[i]).exit.Aims() ==> PieceOf(pieces, chain[i]).exit.target in chain
    requires |t.bytes| < 0x7FFF_FFF0
    ensures Sound(t, chain, pieces, i)
  {
    hide Related, Placed, Finished, Destination;
    var p := PieceOf(pieces, chain[i]);
    PlacedBounds(t, chain[i], p, BackAt(p, chain, i), EndOf(t, chain, i));
    FinishedLength(t);
    BodyIntact(t, chain, pieces, i);
    if p.exit.Aims() {
      OffsetsInside(t, chain, pieces);
      if BackAt(p, chain, i) {
        BackSound(t, chain, pieces, i);
      } else {
        OpenSound(t, chain, pieces, i);
      }
    }
  }

  lemma BodyIntact(t: Text, chain: seq<nat>, pieces: Pieces, i: nat)
    requires Distinct(chain) && Written(t, chain, pieces) && i < |chain|
    requires var p := PieceOf(pieces, chain[i]); Placed(t, chain[i], p, BackAt(p, chain, i), EndOf(t, chain, i))
    ensures Site(t, chain[i], PieceOf(pieces, chain[i])) <= |Finished(t)|
    ensures Finished(t)[Offset(t, chain[i])..Site(t, chain[i], PieceOf(pieces, chain[i]))] == PieceOf(pieces, chain[i]).body
  {
    hide Related, Placed, Finished, Distinct, BackAt, Offset, EndOf, Fixup;
    var b := chain[i];
    var p := PieceOf(pieces, b);
    PlacedBounds(t, b, p, BackAt(p, chain, i), EndOf(t, chain, i));
    FinishedLength(t);
    if b in t.fixups {
      FieldInside(t, chain, pieces, i);
    }
    forall k | Offset(t, b) <= k < Site(t, b, p)
      ensures Finished(t)[k] == t.bytes[k]
    {
      OwnByte(t, chain, pieces, i, k);
    }
    assert Finished(t)[Offset(t, b)..Site(t, b, p)] == t.bytes[Offset(t, b)..Site(t, b, p)];
  }

  lemma PlacedAt(t: Text, chain: seq<nat>, pieces: Pieces, i: nat)
    requires Written(t, chain, pieces) && i < |chain|
    ensures var p := PieceOf(pieces, chain[i]); Placed(t, chain[i], p, BackAt(p, chain, i), EndOf(t, chain, i))
  {
    hide Placed, Related;
  }

  lemma PlacedBack(t: Text, b: nat, p: Piece, end: nat)
    requires Placed(t, b, p, true, end) && p.exit.Aims()
    ensures Offset(t, b) <= Site(t, b, p) <= end <= |t.bytes| && b !in t.fixups && Offset(t, p.exit.target) <= Site(t, b, p)
    ensures t.bytes[Site(t, b, p)..end] == JumpBack(Offset(t, p.exit.target) - Site(t, b, p))
  {
  }

  lemma BackSound(t: Text, chain: seq<nat>, pieces: Pieces, i: nat)
    requires Distinct(chain) && Written(t, chain, pieces) && i < |chain| && |t.bytes| < 0x7FFF_FFF0
    requires var p := PieceOf(pieces, chain[i]); p.exit.Aims() && BackAt(p, chain, i)
    ensures var p := PieceOf(pieces, chain[i]); var site := Site(t, chain[i], p); var target := Offset(t, p.exit.target);
            && (Destination(Finished(t), site) == Some(target) <==> !JustTooFar(target - site))
            && OpensAs(Finished(t), site, p.exit)
  {
    hide Related, Finished, Destination, Placed, JumpBack, Written, AllPlaced, InField, Distinct;
    var b := chain[i];
    var p := PieceOf(pieces, b);
    var end := EndOf(t, chain, i);
    var site := Site(t, b, p);
    PlacedAt(t, chain, pieces, i);
    PlacedBack(t, b, p, end);
    FinishedLength(t);
    forall k | site <= k < end
      ensures Finished(t)[k] == t.bytes[k]
    {
      OwnByte(t, chain, pieces, i, k);
    }
    hide BackAt, Offset, EndOf, Site;
    BackBytes(t, Finished(t), site, end, Offset(t, p.exit.target));
  }

  lemma BackBytes(t: Text, bytes: seq<Byte>, site: nat, end: nat, target: nat)
    requires site <= end <= |t.bytes| == |bytes| && target <= site < 0x7FFF_FFF0
    requires t.bytes[site..end] == JumpBack(target - site)
    requires forall k :: site <= k < end ==> bytes[k] == t.bytes[k]
    ensures Destination(bytes, site) == Some(target) <==> !JustTooFar(target - site)
    ensures site + 1 < |bytes| && (bytes[site] == JMP_REL8 || bytes[site] == JMP_REL32)
  {
    BackOpens(target - site);
    hide JumpBack, Destination, JustTooFar;
    WideHalf();
    var jump := JumpBack(target - site);
    assert bytes[site..end] == jump;
    assert bytes == bytes[..site] + jump + bytes[end..];
    JumpBackLands(bytes[..site], bytes[end..], target - site);
  }

  lemma BackOpens(relative: int)
    ensures var jump := JumpBack(relative); |jump| > 1 && (jump[0] == JMP_REL8 || jump[0] == JMP_REL32)
  {
    hide Little;
  }

  lemma WideHalf()
    ensures Half(4) == 0x8000_0000
  {
    assert Half(1) == 128;
    assert Half(2) == 0x8000;
    assert Half(3) == 0x80_0000;
  }

  lemma OpenSound(t: Text, chain: seq<nat>, pieces: Pieces, i: nat)
    requires Distinct(chain) && Written(t, chain, pieces) && i < |chain|
    requires var p := PieceOf(pieces, chain[i]); p.exit.Aims() && !BackAt(p, chain, i) && Offset(t, p.exit.target) <= |t.bytes|
    requires |t.bytes| < 0x7FFF_FFF0
    ensures var p := PieceOf(pieces, chain[i]);
            Destination(Finished(t), Site(t, chain[i], p)) == Some(Offset(t, p.exit.target))
    ensures var p := PieceOf(pieces, chain[i]); var site := Site(t, chain[i], p);
            OpensAs(Finished(t), site, p.exit) && (p.exit.OnCondition? ==> EndOf(t, chain, i) == site + 6)
  {
    hide Finished, Destination, Offset, Little, OpenJump, Site, EndOf, PieceOf, BackAt;
    var p := PieceOf(pieces, chain[i]);
    var site := Site(t, chain[i], p);
    var end := EndOf(t, chain, i);
    OpenPlace(t, chain, pieces, i);
    FinishedLength(t);
    OpenWritten(t, chain, pieces, i, site, end, Offset(t, p.exit.target) - end);
    hide Written, Distinct;
    OpenBytes(Finished(t), site, end, p.exit, Offset(t, p.exit.target) - end);
  }

  lemma OpenPlace(t: Text, chain: seq<nat>, pieces: Pieces, i: nat)
    requires AllPlaced(t, chain, pieces) && i < |chain|
    requires var p := PieceOf(pieces, chain[i]); p.exit.Aims() && !BackAt(p, chain, i)
    ensures var p := PieceOf(pieces, chain[i]); var site := Site(t, chain[i], p); var end := EndOf(t, chain, i);
            && end == site + |OpenJump(p.exit)| + 4 && end <= |t.bytes| && Offset(t, chain[i]) <= site
            && chain[i] in t.fixups && Fixup(t, chain[i]) == end - 4
            && t.bytes[site..end - 4] == OpenJump(p.exit)
  {
    hide EndOf, OpenJump;
    var p := PieceOf(pieces, chain[i]);
    assert Placed(t, chain[i], p, false, EndOf(t, chain, i));
  }

  /** The finished bytes of an open jump: as they were, but for the distance. */
  lemma OpenWritten(t: Text, chain: seq<nat>, pieces: Pieces, i: nat, site: nat, end: nat, distance: int)
    requires Distinct(chain) && Written(t, chain, pieces) && i < |chain|
    requires end == EndOf(t, chain, i) <= |t.bytes| == |Finished(t)| && Offset(t, chain[i]) <= site <= end - 4
    requires chain[i] in t.fixups && Fixup(t, chain[i]) == end - 4
    requires distance == Offset(t, PieceOf(pieces, chain[i]).exit.target) - end
    ensures Finished(t)[site..end - 4] == t.bytes[site..end - 4]
    ensures Finished(t)[end - 4..end] == Little(distance, 4)
  {
    hide Written, Distinct, Finished, Offset, Little, EndOf, PieceOf;
    forall k | site <= k < end
      ensures Finished(t)[k] == if k < end - 4 then t.bytes[k] else Little(distance, 4)[k - (end - 4)]
    {
      OwnByte(t, chain, pieces, i, k);
    }
  }

  lemma OpenBytes(bytes: seq<Byte>, site: nat, end: nat, exit: Exit, distance: int)
    requires exit.Aims() && end == site + |OpenJump(exit)| + 4 && end <= |bytes|
    requires bytes[site..end - 4] == OpenJump(exit) && bytes[end - 4..end] == Little(distance, 4)
    requires -0x7FFF_FFFF < distance < 0x7FFF_FFFF
    ensures Destination(bytes, site) == Some(end + distance)
    ensures OpensAs(bytes, site, exit) && (exit.OnCondition? ==> end == site + 6)
  {
    WideHalf();
    SignedRoundTrip(distance, 4);
    assert bytes[site] == bytes[site..end - 4][0];
    if exit.OnCondition? {
      assert bytes[site + 1] == bytes[site..end - 4][1];
    }
  }

  lemma FinishedLength(t: Text)
    ensures |Finished(t)| == |t.bytes|
  {
  }

  // ---- the assembler as the program runs it ------------------------------------------------------

  class Assembler {
    var section: seq<Byte>
    var generatedOffset: map<nat, nat>
    var fixupOffset: map<nat, nat>
    var relocations: seq<Relocation>

    ghost function Now(): Text
      reads this
    {
      Text(section, generatedOffset, fixupOffset, relocations)
    }

    constructor (start: seq<Byte>)
      ensures Now() == Text(start, map[], map[], [])
    {
      section, generatedOffset, fixupOffset, relocations := start, map[], map[], [];
    }

    method Append(bytes: seq<Byte>)
      modifies this`section
      ensures section == old(section) + bytes
    {
      section := section + bytes;
    }

    /** A jump with an empty field, and the note to fill it in later. */
    method AppendOpen(b: nat, exit: Exit)
      requires exit.Aims()
      modifies this
      ensures Now() == Open(old(Now()), b, exit)
    {
      Append(OpenJump(exit));
      Append(Little(0, 4));
      fixupOffset := fixupOffset[b := |section| - 4];
      relocations := relocations + [Relocation(b, exit.target)];
    }

    /** A jump to a place that is known already. */
    method AppendBack(to: int)
      modifies this`section
      ensures section == old(section) + JumpBack(to - |old(section)|)
    {
      var relative := to - |section|;
      if -128 <= relative <= 127 {
        Append([JMP_REL8] + Little(relative - 2, 1));
      } else {
        Append([JMP_REL32] + Little(relative - 5, 4));
      }
    }

    method GenerateBlock(b: nat, p: Piece)
      modifies this
      ensures Now() == EmitPiece(old(Now()), b, p)
    {
      hide Little;
      generatedOffset := generatedOffset[b := |section|];
      Append(p.body);
      match p.exit
      case Falls =>
      case Always(target) =>
        if target in generatedOffset {
          AppendBack(generatedOffset[target]);
        } else {
          AppendOpen(b, p.exit);
        }
      case OnCondition(_, _) =>
        AppendOpen(b, p.exit);
    }

    method GenerateAll(chain: seq<nat>, pieces: Pieces)
      modifies this
      ensures Now() == EmitPieces(old(Now()), chain, pieces)
    {
      hide EmitPiece;
      var i := 0;
      while i < |chain|
        invariant 0 <= i <= |chain| && Now() == EmitPieces(old(Now()), chain[..i], pieces)
      {
        GenerateBlock(chain[i], PieceOf(pieces, chain[i]));
        assert chain[..i + 1][..i] == chain[..i];
        i := i + 1;
      }
      assert chain[..i] == chain;
    }

    /** Fills in every open field, in place. */
    method Patch()
      requires forall r :: r in relocations ==> r.from in fixupOffset && r.to in generatedOffset
      modifies this`section
      ensures section == Finished(old(Now()))
    {
      hide PatchField, Little;
      ghost var t := Now();
      var n := 0;
      while n < |relocations|
        invariant 0 <= n <= |relocations| && section == Patched(t, n)
      {
        var r := relocations[n];
        var at: int := fixupOffset[r.from];
        var to: int := generatedOffset[r.to];
        section := PatchField(section, at, Little(to - at - 4, 4));
        n := n + 1;
      }
    }
  }
}
