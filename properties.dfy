/**
 * What the engine promises, stated over the functions of module Semantics:
 * the geometry of moving and jumping, the blocked and invalid steps, the
 * directive, rotation, the stack and input instructions, reset, and the
 * points where the two engines agree.
 */
module Properties {
  import opened Wrappers
  import opened Codec
  import opened Grid
  import opened Semantics

  // ---------------------------------------------------------------------
  // Moving toward an edge and the jump scan

  /** The cell k steps from (x, y) in direction (dx, dy), or None off the grid. */
  function CellAhead(code: Code, x: int, y: int, dx: int, dy: int, k: int): Option<int> {
    Get(code, AheadX(x, dx, k), AheadY(y, dy, k))
  }

  /** With a unit direction, the cell k steps ahead exists exactly for k up to Dist. */
  lemma AheadValid(code: Code, x: int, y: int, dx: int, dy: int, k: int)
    requires WellFormed(code) && IsValid(code, x, y) && UnitDir(dx, dy) && k >= 0
    ensures IsValid(code, AheadX(x, dx, k), AheadY(y, dy, k)) <==> k <= Dist(code, x, y, dx, dy)
  {
    assert |code[y]| == Columns;
    if dy != 0 && 0 <= AheadY(y, dy, k) < |code| {
      assert |code[AheadY(y, dy, k)]| == Columns;
    }
  }

  /**
   * A move with a unit direction succeeds exactly when the pointer is not on
   * the edge it heads for, and then brings that edge one cell closer.
   */
  lemma MoveTowardEdge(v: Variant, s: MachineState)
    requires Inv(s) && UnitDir(s.dx, s.dy)
    ensures var m := MoveSpec(v, s);
      (m.1 <==> Dist(s.code, s.x, s.y, s.dx, s.dy) >= 1) &&
      (m.1 ==> Dist(m.0.code, m.0.x, m.0.y, m.0.dx, m.0.dy) == Dist(s.code, s.x, s.y, s.dx, s.dy) - 1)
  {
    AheadValid(s.code, s.x, s.y, s.dx, s.dy, 1);
  }

  /** The cells ahead of the next cell are the cells one further ahead. */
  lemma CellShift(code: Code, x: int, y: int, dx: int, dy: int, j: int)
    requires UnitDir(dx, dy)
    ensures (AheadX(x + dx, dx, j), AheadY(y + dy, dy, j)) == (AheadX(x, dx, j + 1), AheadY(y, dy, j + 1))
    ensures CellAhead(code, x + dx, y + dy, dx, dy, j) == CellAhead(code, x, y, dx, dy, j + 1)
  {
  }

  /**
   * A scan started one cell further on, seen from (x, y): it stops k >= 1
   * cells ahead on the first match after (x, y), or on the edge (k = Dist)
   * when no later cell matches.
   */
  lemma ScanFromNext(code: Code, x: int, y: int, dx: int, dy: int, top: int)
    requires WellFormed(code) && IsValid(code, x, y) && UnitDir(dx, dy) && IsValid(code, x + dx, y + dy)
    ensures var r := Scan(code, x + dx, y + dy, dx, dy, top);
      var n := Dist(code, x, y, dx, dy); var k := n - Dist(code, r.0, r.1, dx, dy);
      1 <= k && (r.0, r.1) == (AheadX(x, dx, k), AheadY(y, dy, k)) &&
      (forall j :: 1 <= j < k ==> CellAhead(code, x, y, dx, dy, j) != Some(top)) &&
      (r.2 ==> CellAhead(code, x, y, dx, dy, k) == Some(top)) &&
      (!r.2 ==> k == n && CellAhead(code, x, y, dx, dy, k) != Some(top))
    decreases Dist(code, x, y, dx, dy), 0
  {
    var (x1, y1) := (x + dx, y + dy);
    var n := Dist(code, x, y, dx, dy);
    var r := Scan(code, x1, y1, dx, dy, top);
    assert |code[y]| == Columns && |code[y1]| == Columns;
    assert Dist(code, x1, y1, dx, dy) == n - 1;
    ScanFindsFirstMatch(code, x1, y1, dx, dy, top);
    var k := n - 1 - Dist(code, r.0, r.1, dx, dy);
    CellShift(code, x, y, dx, dy, k);
    CellShift(code, x, y, dx, dy, k + 1);
    assert forall j :: 0 <= j < k ==> CellAhead(code, x1, y1, dx, dy, j) != Some(top);
    forall j | 1 <= j < k + 1
      ensures CellAhead(code, x, y, dx, dy, j) != Some(top)
    {
      CellShift(code, x, y, dx, dy, j - 1);
      assert CellAhead(code, x1, y1, dx, dy, j - 1) != Some(top);
    }
  }

  /**
   * The while loop of _jump stops on the first cell, counting the current
   * one, that holds top, k cells ahead; when no cell up to the edge holds
   * it, the loop fails on the last valid cell.
   */
  lemma {:induction false} ScanFindsFirstMatch(code: Code, x: int, y: int, dx: int, dy: int, top: int)
    requires WellFormed(code) && IsValid(code, x, y) && UnitDir(dx, dy)
    ensures var r := Scan(code, x, y, dx, dy, top);
      var k := Dist(code, x, y, dx, dy) - Dist(code, r.0, r.1, dx, dy);
      0 <= k && (r.0, r.1) == (AheadX(x, dx, k), AheadY(y, dy, k)) &&
      (forall j :: 0 <= j < k ==> CellAhead(code, x, y, dx, dy, j) != Some(top)) &&
      (r.2 ==> CellAhead(code, x, y, dx, dy, k) == Some(top)) &&
      (!r.2 ==> k == Dist(code, x, y, dx, dy) && CellAhead(code, x, y, dx, dy, k) != Some(top))
    decreases Dist(code, x, y, dx, dy), 1
  {
    var n := Dist(code, x, y, dx, dy);
    assert CellAhead(code, x, y, dx, dy, 0) == Some(code[y][x]);
    if code[y][x] != top {
      AheadValid(code, x, y, dx, dy, 1);
      if IsValid(code, x + dx, y + dy) {
        ScanFromNext(code, x, y, dx, dy, top);
        assert Scan(code, x, y, dx, dy, top) == Scan(code, x + dx, y + dy, dx, dy, top);
      }
    }
  }

  /** Where _jump leaves the pointer: one move, then the scan; false when it ran off the grid. */
  function JumpTarget(code: Code, x: int, y: int, dx: int, dy: int, top: int): (r: (int, int, bool))
    requires WellFormed(code) && IsValid(code, x, y) && UnitDir(dx, dy)
    ensures IsValid(code, r.0, r.1)
  {
    if IsValid(code, x + dx, y + dy) then Scan(code, x + dx, y + dy, dx, dy, top) else (x, y, false)
  }

  /**
   * The jump target is the first cell after (x, y) holding top, k >= 1 cells
   * ahead; when none up to the edge holds it, the target is the last valid
   * cell and the jump fails.
   */
  lemma JumpTargetFirstMatch(code: Code, x: int, y: int, dx: int, dy: int, top: int)
    requires WellFormed(code) && IsValid(code, x, y) && UnitDir(dx, dy)
    ensures var r := JumpTarget(code, x, y, dx, dy, top);
      var n := Dist(code, x, y, dx, dy); var k := n - Dist(code, r.0, r.1, dx, dy);
      (r.0, r.1) == (AheadX(x, dx, k), AheadY(y, dy, k)) &&
      (r.2 ==>
         1 <= k && CellAhead(code, x, y, dx, dy, k) == Some(top) &&
         forall j :: 1 <= j < k ==> CellAhead(code, x, y, dx, dy, j) != Some(top)) &&
      (!r.2 ==>
         k == n && forall j :: 1 <= j <= n ==> CellAhead(code, x, y, dx, dy, j) != Some(top))
  {
    AheadValid(code, x, y, dx, dy, 1);
    if IsValid(code, x + dx, y + dy) {
      ScanFromNext(code, x, y, dx, dy, top);
    }
  }

  /** JumpSpec when the first move runs off the grid: the pointer stays and the jump fails. */
  lemma JumpFromEdge(v: Variant, s: MachineState)
    requires Inv(s) && UnitDir(s.dx, s.dy) && s.stack != [] && !IsValid(s.code, s.x + s.dx, s.y + s.dy)
    ensures var r := JumpSpec(v, s);
      (r.x, r.y, r.pointerMoved, r.error) == (s.x, s.y, s.pointerMoved, Some(JumpedOutOfBounds))
  {
    assert !MoveSpec(v, s).1;
  }

  /** JumpSpec after a successful first move: the pointer goes where the scan from the next cell stops. */
  lemma JumpPastFirstMove(v: Variant, s: MachineState)
    requires Inv(s) && UnitDir(s.dx, s.dy) && s.stack != [] && IsValid(s.code, s.x + s.dx, s.y + s.dy)
    ensures var r := JumpSpec(v, s); var t := Scan(s.code, s.x + s.dx, s.y + s.dy, s.dx, s.dy, Top(s.stack));
      (r.x, r.y) == (t.0, t.1) && r.error == (if t.2 then s.error else Some(JumpedOutOfBounds)) &&
      r.pointerMoved == (s.pointerMoved || v.Legacy?)
  {
    var m := MoveSpec(v, s).0;
    assert MoveSpec(v, s).1;
    assert m.code == s.code && (m.x, m.y, m.dx, m.dy) == (s.x + s.dx, s.y + s.dy, s.dx, s.dy);
    assert m.stack == s.stack && m.error == s.error;
  }

  /** JumpSpec seen field by field: with a stack value the pointer goes to the jump target. */
  lemma JumpUnfold(v: Variant, s: MachineState)
    requires Inv(s) && UnitDir(s.dx, s.dy) && s.stack != []
    ensures var r := JumpSpec(v, s); var t := JumpTarget(s.code, s.x, s.y, s.dx, s.dy, Top(s.stack));
      r.pointerMoved == (s.pointerMoved || (v.Legacy? && IsValid(s.code, s.x + s.dx, s.y + s.dy))) &&
      (r.x, r.y) == (t.0, t.1) && r.error == if t.2 then s.error else Some(JumpedOutOfBounds)
  {
    if IsValid(s.code, s.x + s.dx, s.y + s.dy) {
      JumpPastFirstMove(v, s);
    } else {
      JumpFromEdge(v, s);
    }
  }

  /**
   * _jump: an empty stack underflows; otherwise the pointer moves at least
   * once and stops on the first later cell holding the stack top, or, when no
   * cell up to the edge holds it, ends on the last valid cell with
   * JumpedOutOfBounds. The legacy State records that the pointer moved.
   */
  lemma JumpFindsFirstMatch(v: Variant, s: MachineState)
    requires Inv(s) && UnitDir(s.dx, s.dy) && s.error.None?
    ensures s.stack == [] ==> JumpSpec(v, s) == s.(error := Some(StackUnderflow))
    ensures s.stack != [] ==>
      var r := JumpSpec(v, s); var top := Top(s.stack); var n := Dist(s.code, s.x, s.y, s.dx, s.dy);
      var k := n - Dist(s.code, r.x, r.y, s.dx, s.dy);
      (r.x, r.y) == (AheadX(s.x, s.dx, k), AheadY(s.y, s.dy, k)) &&
      r.pointerMoved == (s.pointerMoved || (v.Legacy? && n >= 1)) &&
      (r.error.None? ==>
         1 <= k && CellAhead(s.code, s.x, s.y, s.dx, s.dy, k) == Some(top) &&
         forall j :: 1 <= j < k ==> CellAhead(s.code, s.x, s.y, s.dx, s.dy, j) != Some(top)) &&
      (r.error.Some? ==>
         r.error == Some(JumpedOutOfBounds) && k == n &&
         forall j :: 1 <= j <= n ==> CellAhead(s.code, s.x, s.y, s.dx, s.dy, j) != Some(top))
  {
    if s.stack != [] {
      JumpUnfold(v, s);
      AheadValid(s.code, s.x, s.y, s.dx, s.dy, 1);
      JumpTargetFirstMatch(s.code, s.x, s.y, s.dx, s.dy, Top(s.stack));
    }
  }

  // ---------------------------------------------------------------------
  // Rotation

  /** Turning one way and then the other restores the direction. */
  lemma RotationsAreInverse(dx: int, dy: int, clockwise: bool)
    ensures var d := Rotated(dx, dy, clockwise); Rotated(d.0, d.1, !clockwise) == (dx, dy)
  {
  }

  /** Four quarter turns in one sense are the identity. */
  lemma FourRotationsIdentity(dx: int, dy: int, clockwise: bool)
    ensures var a := Rotated(dx, dy, clockwise);
            var b := Rotated(a.0, a.1, clockwise);
            var c := Rotated(b.0, b.1, clockwise);
            Rotated(c.0, c.1, clockwise) == (dx, dy)
  {
  }

  /**
   * On screen (y grows downward) a clockwise turn takes east to south, south
   * to west, west to north and north to east.
   */
  lemma ClockwiseCompass(h: Heading)
    ensures var d := Rotated(h.Dx(), h.Dy(), true);
      d == match h
        case East => (South.Dx(), South.Dy())
        case South => (West.Dx(), West.Dy())
        case West => (North.Dx(), North.Dy())
        case North => (East.Dx(), East.Dy())
  {
  }

  /**
   * X turns counter-clockwise exactly when the top is negative, x clockwise
   * exactly when it is positive; neither touches the stack or the grid, and
   * both underflow on an empty stack.
   */
  lemma RotateIfEffect(s: MachineState, clockwise: bool)
    requires Inv(s)
    ensures var r := RotateIfSpec(s, clockwise);
      r.stack == s.stack && r.code == s.code && (r.x, r.y) == (s.x, s.y) &&
      (s.stack == [] ==> r == s.(error := Some(StackUnderflow))) &&
      (s.stack != [] ==>
         r.error == s.error &&
         var turns := if clockwise then Top(s.stack) > 0 else Top(s.stack) < 0;
         (r.dx, r.dy) == (if turns then Rotated(s.dx, s.dy, clockwise) else (s.dx, s.dy)))
  {
  }

  // ---------------------------------------------------------------------
  // Blocked, terminal and invalid steps

  /** A blocked machine (done, failed or waiting for input) does not change. */
  lemma StepBlocked(v: Variant, s: MachineState)
    requires Inv(s) && Blocked(s)
    ensures StepSpec(v, s) == StepResult(s, false)
  {
  }

  /** The error field is sticky and q is final: stepping either changes nothing, any number of times. */
  lemma {:induction false} StepsFromBlocked(v: Variant, s: MachineState, n: nat)
    requires Inv(s) && Blocked(s)
    ensures Steps(v, s, n) == s
  {
    if n > 0 {
      StepBlocked(v, s);
      StepsFromBlocked(v, s, n - 1);
    }
  }

  /** n steps that do not raise, or fewer when one raises. */
  function Steps(v: Variant, s: MachineState, n: nat): (r: MachineState)
    requires Inv(s)
    ensures Inv(r)
    decreases n
  {
    if n == 0 then s
    else
      var t := StepSpec(v, s);
      if t.raised then t.next else Steps(v, t.next, n - 1)
  }

  /**
   * A non-printable code, or a printable symbol that is no instruction, sets
   * InvalidInstruction and nothing else; the pointer stays. Only chr's range
   * check can make the Python call raise.
   */
  lemma StepInvalid(v: Variant, s: MachineState)
    requires Inv(s) && !Blocked(s)
    requires !IsPrintable(Instruction(s), false) || Decode(Instruction(s)).Unknown?
    ensures StepSpec(v, s).next == s.(error := Some(InvalidInstruction(Instruction(s))))
    ensures StepSpec(v, s).raised <==> !IsChr(Instruction(s))
  {
    if IsPrintable(Instruction(s), false) {
      assert Execute(v, s, Unknown) == StepResult(s.(error := Some(InvalidInstruction(Instruction(s)))), false);
    }
  }

  /** A printable symbol is an instruction exactly when it is one of the 28 letters and signs of the table. */
  lemma InstructionSet(c: int)
    ensures !Decode(c).Unknown? <==> c in {
      'h' as int, 'l' as int, 'k' as int, 'j' as int, 'H' as int, 'L' as int, 'K' as int, 'J' as int,
      'P' as int, 'p' as int, 'G' as int, 'g' as int, 'D' as int, 'd' as int, 'E' as int, 'e' as int,
      'F' as int, 'f' as int, 'A' as int, 'a' as int, 'R' as int, 'r' as int, 'S' as int, 's' as int,
      'X' as int, 'x' as int, '#' as int, 'q' as int}
  {
  }

  // ---------------------------------------------------------------------
  // The directive

  /**
   * Package engine: # at the origin with ! to its right turns down and moves
   * on; anywhere else it is an invalid instruction and the pointer stays.
   */
  lemma PackageDirective(s: MachineState)
    requires Inv(s) && !Blocked(s) && Instruction(s) == '#' as int
    ensures var r := StepSpec(Package, s);
      !r.raised &&
      if s.x == 0 && s.y == 0 && Get(s.code, 1, 0) == Some('!' as int) then
        r.next == MoveSpec(Package, s.(dx := 0, dy := 1)).0
      else
        r.next == s.(error := Some(InvalidInstruction('#' as int)))
  {
    assert Decode(Instruction(s)) == Directive;
    var d := DirectiveSpec(Package, s);
    if s.x == 0 && s.y == 0 && Get(s.code, 1, 0) == Some('!' as int) {
      assert d == s.(dx := 0, dy := 1);
      assert !Blocked(d);
    }
  }

  /** Legacy State: # never turns and never fails; the step only attempts the move. */
  lemma LegacyDirectiveJustMoves(s: MachineState)
    requires Inv(s) && !Blocked(s) && Instruction(s) == '#' as int
    ensures StepSpec(Legacy, s) == StepResult(MoveSpec(Legacy, s).0, false)
  {
    assert Decode(Instruction(s)) == Directive;
  }

  // ---------------------------------------------------------------------
  // Jumps inside step

  /**
   * H, L, K and J set the heading, jump, and then move one further cell
   * unless the jump failed or stopped on a q.
   */
  lemma StepJump(v: Variant, s: MachineState, h: Heading)
    requires Inv(s) && !Blocked(s) && Decode(Instruction(s)) == Jump(h)
    ensures var j := JumpSpec(v, s.(dx := h.Dx(), dy := h.Dy()));
      StepSpec(v, s) == StepResult(if Blocked(j) then j else MoveSpec(v, j).0, false)
  {
    assert IsPrintable(Instruction(s), false);
  }

  // ---------------------------------------------------------------------
  // Stack instructions

  /** The instructions that need a stack value. */
  predicate NeedsTop(op: Op) {
    op.Delete? || op.Duplicate? || op.Add? || op.Subtract? || op.PopTo? ||
    op.RotateIfNegative? || op.RotateIfPositive?
  }

  /** On an empty stack these set StackUnderflow and leave the stack, the grid and the pointer alone. */
  lemma StepUnderflow(v: Variant, s: MachineState)
    requires Inv(s) && !Blocked(s) && s.stack == [] && NeedsTop(Decode(Instruction(s)))
    ensures StepSpec(v, s) == StepResult(s.(error := Some(StackUnderflow)), false)
  {
    assert IsPrintable(Instruction(s), false);
  }

  /** With a stack value D pops it and d pushes a copy of it; nothing else changes. */
  lemma DeleteAndDuplicate(v: Variant, s: MachineState)
    requires Inv(s) && s.stack != []
    ensures Execute(v, s, Delete).next == s.(stack := s.stack[..|s.stack| - 1])
    ensures Execute(v, s, Duplicate).next == s.(stack := s.stack + [s.stack[|s.stack| - 1]])
  {
  }

  /**
   * With a stack value and a neighbour on the grid, A/a and R/r replace only
   * the top by its sum with or difference from the neighbour.
   */
  lemma ArithmeticEffect(v: Variant, s: MachineState, side: Side)
    requires Inv(s) && s.stack != [] && Adjacent(s, side).Some?
    ensures var n := Adjacent(s, side).value; var below := s.stack[..|s.stack| - 1];
      Execute(v, s, Add(side)) == StepResult(s.(stack := below + [Top(s.stack) + n]), false) &&
      Execute(v, s, Subtract(side)) == StepResult(s.(stack := below + [Top(s.stack) - n]), false)
  {
  }

  /** With a stack value F and f pop the top into the neighbour, written only if it is on the grid. */
  lemma PopToEffect(v: Variant, s: MachineState, side: Side)
    requires Inv(s) && s.stack != []
    ensures Execute(v, s, PopTo(side)).next ==
      s.(stack := s.stack[..|s.stack| - 1], code := Put(s.code, Top(s.stack), s.x, s.y + side.Dy()))
  {
  }

  /** S and s push the neighbour when it is on the grid; E and e write EOT (4) into it. */
  lemma PushAndWriteEof(v: Variant, s: MachineState, side: Side)
    requires Inv(s)
    ensures Adjacent(s, side).Some? ==>
      Execute(v, s, Push(side)) == StepResult(s.(stack := s.stack + [Adjacent(s, side).value]), false)
    ensures Execute(v, s, WriteEof(side)).next == s.(code := Put(s.code, Eot, s.x, s.y + side.Dy()))
  {
  }

  // ---------------------------------------------------------------------
  // Output

  /**
   * P and p: a neighbour in chr range grows stdout by exactly that code;
   * any other C int sets UnprintableOutput and leaves stdout alone; a value
   * beyond the C int range makes the call raise with nothing changed.
   */
  lemma StepPrint(v: Variant, s: MachineState, side: Side)
    requires Inv(s) && !Blocked(s) && Decode(Instruction(s)) == Print(side) && Adjacent(s, side).Some?
    ensures var c := Adjacent(s, side).value; var r := StepSpec(v, s);
      (r.raised <==> !FitsCInt(c)) &&
      (IsChr(c) ==> r.next == MoveSpec(v, s.(stdout := s.stdout + [c])).0 &&
                    r.next.stdout == s.stdout + [c]) &&
      (FitsCInt(c) && !IsChr(c) ==> r.next == s.(error := Some(UnprintableOutput(c)))) &&
      (!FitsCInt(c) ==> r.next == s)
  {
    assert IsPrintable(Instruction(s), false);
    var c := Adjacent(s, side).value;
    if IsChr(c) {
      var p := s.(stdout := s.stdout + [c]);
      assert Instruction(p) == Instruction(s);
      assert !Blocked(p);
    }
  }

  // ---------------------------------------------------------------------
  // Input

  /**
   * G and g take the front of the queue into the neighbour and move on;
   * with an empty queue the machine waits and the pointer stays.
   */
  lemma StepInput(v: Variant, s: MachineState, side: Side)
    requires Inv(s) && !Blocked(s) && Decode(Instruction(s)) == Input(side)
    ensures var r := StepSpec(v, s);
      !r.raised &&
      (s.stdin == [] ==> r.next == s.(needsInput := true)) &&
      (s.stdin != [] ==>
        var g := s.(stdin := s.stdin[1..], code := Put(s.code, s.stdin[0], s.x, s.y + side.Dy()));
        r.next == (if Blocked(g) then g else MoveSpec(v, g).0))
  {
    assert IsPrintable(Instruction(s), false);
  }

  /** The queue is FIFO: G and g store its front and leave the rest, in order. */
  lemma InputTakesFront(v: Variant, s: MachineState, side: Side)
    requires Inv(s) && !Blocked(s) && Decode(Instruction(s)) == Input(side) && s.stdin != []
    ensures StepSpec(v, s).next.code == Put(s.code, s.stdin[0], s.x, s.y + side.Dy())
    ensures StepSpec(v, s).next.stdin == s.stdin[1..]
  {
    StepInput(v, s, side);
  }

  /** A machine waiting on G or g that is given one code holds just that code and can step again. */
  lemma InputSupplied(v: Variant, s: MachineState, side: Side, c: int)
    requires Inv(s) && !Blocked(s) && Decode(Instruction(s)) == Input(side) && s.stdin == []
    ensures InputCharSpec(StepSpec(v, s).next, c) == s.(stdin := [c])
  {
    StepInput(v, s, side);
  }

  /**
   * Waiting is resumed by input_char: a machine that stopped on G or g with an
   * empty queue stores the supplied code on its next step.
   */
  lemma InputResumes(v: Variant, s: MachineState, side: Side, c: int)
    requires Inv(s) && !Blocked(s) && Decode(Instruction(s)) == Input(side) && s.stdin == []
    ensures var w := InputCharSpec(StepSpec(v, s).next, c);
      Inv(w) && !Blocked(w) &&
      StepSpec(v, w).next.code == Put(s.code, c, s.x, s.y + side.Dy()) &&
      StepSpec(v, w).next.stdin == []
  {
    InputSupplied(v, s, side, c);
    var w := s.(stdin := [c]);
    assert Instruction(w) == Instruction(s);
    InputTakesFront(v, w, side);
  }

  // ---------------------------------------------------------------------
  // Reset

  /**
   * reset yields a valid machine at the origin, keeps the grid and the
   * editor fields, clears the legacy rendering flags and is idempotent.
   */
  lemma ResetProperties(v: Variant, s: MachineState)
    requires Inv(s)
    ensures var r := ResetSpec(v, s);
      Inv(r) && (r.x, r.y, r.dx, r.dy) == (0, 0, 0, 0) &&
      r.stack == [] && r.stdout == [] && r.stdin == [] && !r.needsInput && r.error.None? &&
      r.code == s.code && (r.ex, r.ey, r.renderStart) == (s.ex, s.ey, s.renderStart) &&
      (v.Legacy? ==> !r.pointerMoved && !r.cursorMoved) &&
      (v.Package? ==> (r.pointerMoved, r.cursorMoved) == (s.pointerMoved, s.cursorMoved)) &&
      ResetSpec(v, r) == r
  {
    assert |s.code[0]| == Columns;
  }

  /** Resetting a freshly built machine changes nothing. */
  lemma ResetOfInitial(v: Variant, lines: seq<seq<CodePoint>>)
    requires |lines| > 0
    ensures ResetSpec(v, Initial(lines)) == Initial(lines)
  {
  }

  // ---------------------------------------------------------------------
  // The two engines

  /** The state without the legacy movement flag. */
  function Unflagged(s: MachineState): MachineState {
    s.(pointerMoved := false)
  }

  lemma MoveAgrees(s: MachineState, t: MachineState)
    requires Inv(s) && Unflagged(s) == Unflagged(t)
    ensures Inv(t)
    ensures Unflagged(MoveSpec(Package, s).0) == Unflagged(MoveSpec(Legacy, t).0)
    ensures MoveSpec(Package, s).1 == MoveSpec(Legacy, t).1
  {
    assert s.code == t.code && (s.x, s.y, s.dx, s.dy) == (t.x, t.y, t.dx, t.dy);
  }

  lemma JumpAgrees(s: MachineState, t: MachineState)
    requires Inv(s) && UnitDir(s.dx, s.dy) && Unflagged(s) == Unflagged(t)
    ensures Inv(t) && UnitDir(t.dx, t.dy)
    ensures Unflagged(JumpSpec(Package, s)) == Unflagged(JumpSpec(Legacy, t))
  {
    MoveAgrees(s, t);
  }

  /**
   * Apart from the legacy pointer_moved flag, the package engine and the
   * legacy State take the same step on every symbol other than #.
   */
  lemma EnginesAgreeExceptDirective(s: MachineState)
    requires Inv(s) && Instruction(s) != '#' as int
    ensures Unflagged(StepSpec(Package, s).next) == Unflagged(StepSpec(Legacy, s).next)
    ensures StepSpec(Package, s).raised == StepSpec(Legacy, s).raised
  {
    if !Blocked(s) && IsPrintable(Instruction(s), false) {
      var op := Decode(Instruction(s));
      var d := Execute(Package, s, op);
      var e := Execute(Legacy, s, op);
      if op.Jump? {
        var u := s.(dx := op.heading.Dx(), dy := op.heading.Dy());
        JumpAgrees(u, u);
      }
      assert Unflagged(d.next) == Unflagged(e.next) && d.raised == e.raised;
      assert Blocked(d.next) == Blocked(e.next);
      if !d.raised && !Blocked(d.next) {
        MoveAgrees(d.next, e.next);
      }
    }
  }
}
