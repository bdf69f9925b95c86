/**
 * The execution engine as functions on a snapshot of the interpreter's
 * fields: moving, the jump scan, rotation, the per-instruction table and one
 * step. The class in module Interpreter is proved to follow these functions.
 * Both engines share them; Variant selects the legacy script's differences.
 */
module Semantics {
  import opened Wrappers
  import opened Codec
  import opened Grid

  /** Package engine (arghonaut/interpreter.py) or legacy State (arghonaut.py). */
  datatype Variant = Package | Legacy

  datatype Heading = West | East | North | South {
    function Dx(): int { match this case West => -1 case East => 1 case _ => 0 }
    function Dy(): int { match this case North => -1 case South => 1 case _ => 0 }
  }

  /** Which neighbour of the pointer an instruction reads or writes. */
  datatype Side = Above | Below {
    function Dy(): int { if Above? then -1 else 1 }
  }

  /** The closed instruction set. */
  datatype Op =
    | Turn(heading: Heading)      // h l k j
    | Jump(heading: Heading)      // H L K J
    | Print(side: Side)           // P p
    | Input(side: Side)           // G g
    | Delete                      // D
    | Duplicate                   // d
    | WriteEof(side: Side)        // E e
    | PopTo(side: Side)           // F f
    | Add(side: Side)             // A a
    | Subtract(side: Side)        // R r
    | Push(side: Side)            // S s
    | RotateIfNegative            // X
    | RotateIfPositive            // x
    | Directive                   // #
    | Quit                        // q
    | Unknown                     // any other symbol

  /** The diagnostics the engine stores in its error field. */
  datatype Error =
    | NoDirection
    | OutOfBounds
    | JumpedOutOfBounds
    | StackUnderflow
    | InvalidInstruction(symbol: int)
    | UnprintableOutput(symbol: int)

  /**
   * The interpreter's fields. pointerMoved, cursorMoved, ex, ey and
   * renderStart exist only in the legacy State; the package engine never
   * touches them.
   */
  datatype MachineState = MachineState(
    code: Code,
    x: int, y: int,
    dx: int, dy: int,
    stack: seq<int>,
    stdout: seq<CodePoint>,
    stdin: seq<int>,
    needsInput: bool,
    error: Option<Error>,
    pointerMoved: bool,
    cursorMoved: bool,
    ex: int, ey: int, renderStart: int)

  /** The state after a call, and whether the Python call raised an exception instead of returning. */
  datatype StepResult = StepResult(next: MachineState, raised: bool)

  predicate DirOk(dx: int, dy: int) {
    (dx == 0 && dy == 0) || (dx == 0 && (dy == 1 || dy == -1)) || (dy == 0 && (dx == 1 || dx == -1))
  }

  predicate UnitDir(dx: int, dy: int) {
    DirOk(dx, dy) && (dx, dy) != (0, 0)
  }

  /** The machine invariant: a non-empty grid of full rows, the pointer on a cell, a legal direction. */
  predicate Inv(s: MachineState) {
    |s.code| > 0 && WellFormed(s.code) && IsValid(s.code, s.x, s.y) && DirOk(s.dx, s.dy)
  }

  /** instruction: the cell under the pointer, which is always on the grid. */
  function Instruction(s: MachineState): (r: int)
    requires Inv(s)
    ensures Get(s.code, s.x, s.y) == Some(r)
  {
    s.code[s.y][s.x]
  }

  /** done: the pointer is on the quit instruction. */
  predicate Done(s: MachineState)
    requires Inv(s)
    ensures Done(s) <==> Decode(Instruction(s)) == Quit
  {
    Instruction(s) == 'q' as int
  }

  predicate Blocked(s: MachineState)
    requires Inv(s)
  {
    Done(s) || s.error.Some? || s.needsInput
  }

  function Top(stack: seq<int>): int
    requires stack != []
  {
    stack[|stack| - 1]
  }

  function Pop(stack: seq<int>): seq<int>
    requires stack != []
  {
    stack[..|stack| - 1]
  }

  // ---------------------------------------------------------------------
  // Construction, reset, input

  /** The state the constructor builds from the source lines. */
  function Initial(lines: seq<seq<CodePoint>>): (s: MachineState)
    requires |lines| > 0
    ensures Inv(s)
  {
    MachineState(FromLines(lines), 0, 0, 0, 0, [], [], [], false, None, false, false, 0, 0, 0)
  }

  /**
   * reset: pointer, direction, stack and I/O back to their initial values;
   * the legacy State also clears its two rendering flags. The grid and the
   * legacy editor cursor and scroll position are kept.
   */
  function ResetSpec(v: Variant, s: MachineState): (r: MachineState)
    ensures Inv(s) ==> Inv(r)
    ensures r.code == s.code
  {
    var keepFlags := v.Package?;
    MachineState(s.code, 0, 0, 0, 0, [], [], [], false, None,
                 keepFlags && s.pointerMoved, keepFlags && s.cursorMoved, s.ex, s.ey, s.renderStart)
  }

  /** input_char: the code joins the back of the queue and the machine no longer waits. */
  function InputCharSpec(s: MachineState, c: int): (r: MachineState)
    ensures r.stdin == s.stdin + [c] && !r.needsInput
    ensures r == s.(stdin := r.stdin, needsInput := false)
  {
    s.(stdin := s.stdin + [c], needsInput := false)
  }

  // ---------------------------------------------------------------------
  // Moving and jumping

  /**
   * _move / move: advance one cell, or fail with NoDirection or OutOfBounds
   * leaving the pointer where it was. The legacy State records a successful move.
   */
  function MoveSpec(v: Variant, s: MachineState): (r: (MachineState, bool))
    requires Inv(s)
    ensures Inv(r.0)
    ensures r.1 <==> (s.dx, s.dy) != (0, 0) && IsValid(s.code, s.x + s.dx, s.y + s.dy)
    ensures r.1 ==> r.0 == s.(x := s.x + s.dx, y := s.y + s.dy, pointerMoved := r.0.pointerMoved)
    ensures r.1 ==> r.0.pointerMoved == (v.Legacy? || s.pointerMoved)
    ensures !r.1 ==> r.0 == s.(error := r.0.error)
    ensures !r.1 ==> r.0.error == Some(if (s.dx, s.dy) == (0, 0) then NoDirection else OutOfBounds)
  {
    if s.dx == 0 && s.dy == 0 then
      (s.(error := Some(NoDirection)), false)
    else if IsValid(s.code, s.x + s.dx, s.y + s.dy) then
      (s.(x := s.x + s.dx, y := s.y + s.dy, pointerMoved := if v.Legacy? then true else s.pointerMoved), true)
    else
      (s.(error := Some(OutOfBounds)), false)
  }

  /** A state t and flag ok that satisfy MoveSpec's contract field by field are its result. */
  lemma MoveMatchesSpec(v: Variant, s: MachineState, t: MachineState, ok: bool)
    requires Inv(s)
    requires t == s.(x := t.x, y := t.y, error := t.error, pointerMoved := t.pointerMoved)
    requires ok <==> (s.dx, s.dy) != (0, 0) && IsValid(s.code, s.x + s.dx, s.y + s.dy)
    requires ok ==> (t.x, t.y) == (s.x + s.dx, s.y + s.dy) && t.error == s.error &&
                    t.pointerMoved == (v.Legacy? || s.pointerMoved)
    requires !ok ==> (t.x, t.y) == (s.x, s.y) && t.pointerMoved == s.pointerMoved &&
                     t.error == Some(if (s.dx, s.dy) == (0, 0) then NoDirection else OutOfBounds)
    ensures (t, ok) == MoveSpec(v, s)
  {
  }

  /** Cells left between (x, y) and the edge that direction (dx, dy) heads for. */
  function Dist(code: Code, x: int, y: int, dx: int, dy: int): nat
    requires WellFormed(code) && IsValid(code, x, y)
  {
    if dx > 0 then Columns - 1 - x
    else if dx < 0 then x
    else if dy > 0 then |code| - 1 - y
    else if dy < 0 then y
    else 0
  }

  /** Column and row k cells from (x, y) in direction (dx, dy), for a unit or zero direction. */
  function AheadX(x: int, dx: int, k: int): int {
    if dx > 0 then x + k else if dx < 0 then x - k else x
  }

  function AheadY(y: int, dy: int, k: int): int {
    if dy > 0 then y + k else if dy < 0 then y - k else y
  }

  /**
   * The while loop of _jump on the pointer alone: move until the cell equals
   * top (true) or until the next move would leave the grid (false), giving
   * the cell where the pointer stops.
   */
  function Scan(code: Code, x: int, y: int, dx: int, dy: int, top: int): (r: (int, int, bool))
    requires WellFormed(code) && IsValid(code, x, y) && UnitDir(dx, dy)
    ensures IsValid(code, r.0, r.1)
    ensures Dist(code, r.0, r.1, dx, dy) <= Dist(code, x, y, dx, dy)
    decreases Dist(code, x, y, dx, dy)
  {
    if code[y][x] == top then (x, y, true)
    else if IsValid(code, x + dx, y + dy) then
      assert |code[y]| == Columns && |code[y + dy]| == Columns;
      Scan(code, x + dx, y + dy, dx, dy, top)
    else (x, y, false)
  }

  /**
   * _jump / jump: needs a stack value, always moves once before comparing,
   * then scans; a failed move sets JumpedOutOfBounds where the pointer stands.
   */
  function JumpSpec(v: Variant, s: MachineState): (r: MachineState)
    requires Inv(s) && UnitDir(s.dx, s.dy)
    ensures Inv(r)
    ensures r == s.(x := r.x, y := r.y, error := r.error, pointerMoved := r.pointerMoved)
    ensures s.stack == [] ==> r == s.(error := Some(StackUnderflow))
    ensures s.stack != [] ==> r.error == s.error || r.error == Some(JumpedOutOfBounds)
  {
    if s.stack == [] then s.(error := Some(StackUnderflow))
    else
      var m := MoveSpec(v, s).0;
      if !MoveSpec(v, s).1 then m.(error := Some(JumpedOutOfBounds))
      else
        var t := Scan(m.code, m.x, m.y, m.dx, m.dy, Top(m.stack));
        m.(x := t.0, y := t.1, error := if t.2 then m.error else Some(JumpedOutOfBounds))
  }

  /**
   * _rotate / rotate: swap the components, then negate the new dx
   * (clockwise) or the new dy (counter-clockwise).
   */
  function Rotated(dx: int, dy: int, clockwise: bool): (r: (int, int))
    ensures clockwise ==> r == (-dy, dx)
    ensures !clockwise ==> r == (dy, -dx)
    ensures DirOk(dx, dy) ==> DirOk(r.0, r.1)
  {
    var (sdx, sdy) := (dy, dx);
    if clockwise then (-sdx, sdy) else (sdx, -sdy)
  }

  // ---------------------------------------------------------------------
  // The stack and output helpers

  /**
   * _print / the legacy P and p branches: print a code in chr range, else
   * fail. None (an off-grid neighbour) raises, and so does a code outside the
   * C int range, whose OverflowError is_chr does not catch.
   */
  function PrintSpec(s: MachineState, ch: Option<int>): (r: StepResult)
    ensures Inv(s) ==> Inv(r.next)
    ensures ch.None? ==> r == StepResult(s, true)
    ensures ch.Some? && !FitsCInt(ch.value) ==> r == StepResult(s, true)
    ensures ch.Some? && IsChr(ch.value) ==> r == StepResult(s.(stdout := s.stdout + [ch.value]), false)
    ensures ch.Some? && FitsCInt(ch.value) && !IsChr(ch.value) ==>
      r == StepResult(s.(error := Some(UnprintableOutput(ch.value))), false)
  {
    match ch
    case None => StepResult(s, true)
    case Some(c) =>
      match IsChrCall(c)
      case None => StepResult(s, true)
      case Some(ok) =>
        if ok then StepResult(s.(stdout := s.stdout + [c]), false)
        else StepResult(s.(error := Some(UnprintableOutput(c))), false)
  }

  function Underflow(s: MachineState): MachineState {
    s.(error := Some(StackUnderflow))
  }

  /** _delete */
  function DeleteSpec(s: MachineState): (r: MachineState)
    ensures Inv(s) ==> Inv(r)
    ensures s.stack != [] ==> r == s.(stack := Pop(s.stack))
    ensures s.stack == [] ==> r == Underflow(s)
  {
    if s.stack != [] then s.(stack := Pop(s.stack)) else Underflow(s)
  }

  /** _duplicate */
  function DuplicateSpec(s: MachineState): (r: MachineState)
    ensures Inv(s) ==> Inv(r)
    ensures s.stack != [] ==> r == s.(stack := s.stack + [Top(s.stack)])
    ensures s.stack == [] ==> r == Underflow(s)
  {
    if s.stack != [] then s.(stack := s.stack + [Top(s.stack)]) else Underflow(s)
  }

  /** _add (negate = false) and _subtract (negate = true); a None operand raises. */
  function CombineSpec(s: MachineState, operand: Option<int>, negate: bool): (r: StepResult)
    ensures Inv(s) ==> Inv(r.next)
    ensures s.stack == [] ==> r == StepResult(Underflow(s), false)
    ensures s.stack != [] && operand.None? ==> r == StepResult(s, true)
    ensures s.stack != [] && operand.Some? ==>
      r == StepResult(s.(stack := Pop(s.stack) + [Top(s.stack) + (if negate then -operand.value else operand.value)]), false)
  {
    if s.stack == [] then StepResult(Underflow(s), false)
    else match operand
      case None => StepResult(s, true)
      case Some(n) =>
        var top := if negate then Top(s.stack) - n else Top(s.stack) + n;
        StepResult(s.(stack := s.stack[|s.stack| - 1 := top]), false)
  }

  // ---------------------------------------------------------------------
  // Dispatch and step

  /** The instruction a printable symbol stands for. */
  function Decode(c: int): (op: Op)
    ensures !op.Unknown? ==> IsPrintable(c, false) && c != Space
  {
    if c == 'h' as int then Turn(West)
    else if c == 'l' as int then Turn(East)
    else if c == 'k' as int then Turn(North)
    else if c == 'j' as int then Turn(South)
    else if c == 'H' as int then Jump(West)
    else if c == 'L' as int then Jump(East)
    else if c == 'K' as int then Jump(North)
    else if c == 'J' as int then Jump(South)
    else if c == 'P' as int then Print(Above)
    else if c == 'p' as int then Print(Below)
    else if c == 'G' as int then Input(Above)
    else if c == 'g' as int then Input(Below)
    else if c == 'D' as int then Delete
    else if c == 'd' as int then Duplicate
    else if c == 'E' as int then WriteEof(Above)
    else if c == 'e' as int then WriteEof(Below)
    else if c == 'F' as int then PopTo(Above)
    else if c == 'f' as int then PopTo(Below)
    else if c == 'A' as int then Add(Above)
    else if c == 'a' as int then Add(Below)
    else if c == 'R' as int then Subtract(Above)
    else if c == 'r' as int then Subtract(Below)
    else if c == 'S' as int then Push(Above)
    else if c == 's' as int then Push(Below)
    else if c == 'X' as int then RotateIfNegative
    else if c == 'x' as int then RotateIfPositive
    else if c == '#' as int then Directive
    else if c == 'q' as int then Quit
    else Unknown
  }

  /** The code read from the neighbour above or below the pointer. */
  function Adjacent(s: MachineState, side: Side): (r: Option<int>)
    ensures Inv(s) ==> (r.Some? <==> 0 <= s.y + side.Dy() < |s.code|)
    ensures r.Some? ==> IsValid(s.code, s.x, s.y + side.Dy()) && r.value == s.code[s.y + side.Dy()][s.x]
  {
    Get(s.code, s.x, s.y + side.Dy())
  }

  /** Writing a cell keeps the grid's shape, so the invariant survives. */
  function PutAdjacent(s: MachineState, side: Side, symbol: int): (r: MachineState)
    requires Inv(s)
    ensures Inv(r)
    ensures r == s.(code := Put(s.code, symbol, s.x, s.y + side.Dy()))
  {
    s.(code := Put(s.code, symbol, s.x, s.y + side.Dy()))
  }

  /** G and g: dequeue the front of the input into the neighbour, or wait for input. */
  function InputSpec(s: MachineState, side: Side): (r: MachineState)
    requires Inv(s)
    ensures Inv(r)
  {
    if |s.stdin| > 0 then PutAdjacent(s.(stdin := s.stdin[1..]), side, s.stdin[0])
    else s.(needsInput := true)
  }

  /** F and f: pop the top into the neighbour. */
  function PopToSpec(s: MachineState, side: Side): (r: MachineState)
    requires Inv(s)
    ensures Inv(r)
  {
    if s.stack != [] then PutAdjacent(s.(stack := Pop(s.stack)), side, Top(s.stack))
    else Underflow(s)
  }

  /** S and s: push the neighbour; a missing neighbour raises (see README). */
  function PushSpec(s: MachineState, side: Side): (r: StepResult)
    requires Inv(s)
    ensures Inv(r.next)
    ensures r.raised ==> r.next == s
  {
    match Adjacent(s, side)
    case None => StepResult(s, true)
    case Some(c) => StepResult(s.(stack := s.stack + [c]), false)
  }

  /** X (clockwise = false, turns when the top is negative) and x (clockwise = true, when positive). */
  function RotateIfSpec(s: MachineState, clockwise: bool): (r: MachineState)
    requires Inv(s)
    ensures Inv(r)
  {
    if s.stack == [] then Underflow(s)
    else if (if clockwise then Top(s.stack) > 0 else Top(s.stack) < 0) then
      var d := Rotated(s.dx, s.dy, clockwise);
      s.(dx := d.0, dy := d.1)
    else s
  }

  /**
   * #: in the package engine it turns down at the origin when "!" follows
   * and is invalid anywhere else; in the legacy State it does nothing.
   */
  function DirectiveSpec(v: Variant, s: MachineState): (r: MachineState)
    requires Inv(s)
    ensures Inv(r)
  {
    if v.Legacy? then s
    else if s.x == 0 && s.y == 0 && Get(s.code, 1, 0) == Some('!' as int) then s.(dx := 0, dy := 1)
    else s.(error := Some(InvalidInstruction('#' as int)))
  }

  /** The body of step for one decoded instruction (before the final move). */
  function Execute(v: Variant, s: MachineState, op: Op): (r: StepResult)
    requires Inv(s)
    ensures Inv(r.next)
    ensures r.raised ==> r.next == s
  {
    match op
    case Turn(h) => StepResult(s.(dx := h.Dx(), dy := h.Dy()), false)
    case Jump(h) => StepResult(JumpSpec(v, s.(dx := h.Dx(), dy := h.Dy())), false)
    case Print(side) => PrintSpec(s, Adjacent(s, side))
    case Input(side) => StepResult(InputSpec(s, side), false)
    case Delete => StepResult(DeleteSpec(s), false)
    case Duplicate => StepResult(DuplicateSpec(s), false)
    case WriteEof(side) => StepResult(PutAdjacent(s, side, Eot), false)
    case PopTo(side) => StepResult(PopToSpec(s, side), false)
    case Add(side) => CombineSpec(s, Adjacent(s, side), false)
    case Subtract(side) => CombineSpec(s, Adjacent(s, side), true)
    case Push(side) => PushSpec(s, side)
    case RotateIfNegative => StepResult(RotateIfSpec(s, false), false)
    case RotateIfPositive => StepResult(RotateIfSpec(s, true), false)
    case Directive => StepResult(DirectiveSpec(v, s), false)
    case Quit => StepResult(s, false)
    case Unknown => StepResult(s.(error := Some(InvalidInstruction(Instruction(s)))), false)
  }

  /**
   * step: nothing when blocked; a non-printable symbol is an invalid
   * instruction (and chr raises outside its range); otherwise dispatch, then
   * move unless the instruction raised or left the machine blocked.
   */
  function StepSpec(v: Variant, s: MachineState): (r: StepResult)
    requires Inv(s)
    ensures Inv(r.next)
  {
    if Blocked(s) then StepResult(s, false)
    else
      var c := Instruction(s);
      if !IsPrintable(c, false) then
        StepResult(s.(error := Some(InvalidInstruction(c))), !IsChr(c))
      else
        var d := Execute(v, s, Decode(c));
        if d.raised || Blocked(d.next) then d
        else StepResult(MoveSpec(v, d.next).0, false)
  }
}
