/**
 * The interpreter object (ArghInterpreter in arghonaut/interpreter.py, State
 * in arghonaut.py): its fields are updated in place by the methods below,
 * each proved to follow the matching function of module Semantics.
 */
module Interpreter {
  import opened Wrappers
  import opened Codec
  import opened Grid
  import opened Semantics

  class Interpreter {
    /** Which of the two engines this object is. */
    const variant: Variant

    var code: Code
    // Instruction pointer and direction
    var x: int
    var y: int
    var dx: int
    var dy: int
    // Stack and I/O; the input queue's front is stdin[0]
    var stack: seq<int>
    var stdout: seq<CodePoint>
    var stdin: seq<int>
    var needsInput: bool
    var error: Option<Error>
    // Rendering and editor state of the legacy State
    var pointerMoved: bool
    var cursorMoved: bool
    var ex: int
    var ey: int
    var renderStart: int

    /** The fields as one value. */
    function State(): MachineState
      reads this
    {
      MachineState(code, x, y, dx, dy, stack, stdout, stdin, needsInput, error,
                   pointerMoved, cursorMoved, ex, ey, renderStart)
    }

    /** Inv(State()), spelled out on the fields so that frames stay cheap. */
    ghost predicate Valid()
      reads this
    {
      |code| > 0 && WellFormed(code) && IsValid(code, x, y) && DirOk(dx, dy)
    }

    /** Builds the grid row by row, padding or cutting every line to Columns cells. */
    constructor (variant: Variant, lines: seq<seq<CodePoint>>)
      requires |lines| > 0
      ensures this.variant == variant
      ensures Valid() && State() == Initial(lines)
    {
      var rows: Code := [];
      for cy := 0 to |lines|
        invariant |rows| == cy
        invariant forall j :: 0 <= j < cy ==> rows[j] == PadRow(lines[j])
      {
        var row: seq<int> := [];
        for cx := 0 to Columns
          invariant |row| == cx
          invariant forall i :: 0 <= i < cx ==> row[i] == PadCell(lines[cy], i)
        {
          if cx < |lines[cy]| {
            row := row + [lines[cy][cx]];
          } else {
            row := row + [Space];
          }
        }
        assert row == PadRow(lines[cy]);
        rows := rows + [row];
      }
      assert rows == FromLines(lines);
      this.variant := variant;
      code := rows;
      x, y, dx, dy := 0, 0, 0, 0;
      stack, stdout, stdin := [], [], [];
      needsInput, error := false, None;
      pointerMoved, cursorMoved := false, false;
      ex, ey, renderStart := 0, 0, 0;
    }

    /** reset: everything but the grid and the editor fields goes back to its initial value. */
    method Reset()
      requires Valid()
      modifies this
      ensures Valid() && State() == ResetSpec(variant, old(State()))
    {
      ResetPointer();
      ResetIo();
      // Only the legacy State has the two rendering flags to clear.
      pointerMoved, cursorMoved := variant.Package? && pointerMoved, variant.Package? && cursorMoved;
    }

    /** The pointer back to the origin, with no direction. */
    method ResetPointer()
      modifies this`x, this`y, this`dx, this`dy
      ensures State() == old(State()).(x := 0, y := 0, dx := 0, dy := 0)
    {
      x, y, dx, dy := 0, 0, 0, 0;
    }

    /** An empty stack, empty I/O, no waiting and no error. */
    method ResetIo()
      modifies this`stack, this`stdout, this`stdin, this`needsInput, this`error
      ensures State() == old(State()).(stack := [], stdout := [], stdin := [], needsInput := false, error := None)
    {
      stack, stdout, stdin, needsInput, error := [], [], [], false, None;
    }

    /** put: writes the cell if (cx, cy) is in the grid. */
    method Put(symbol: int, cx: int, cy: int)
      requires Valid()
      modifies this`code
      ensures Valid() && code == Grid.Put(old(code), symbol, cx, cy)
    {
      if IsValid(code, cx, cy) {
        code := code[cy := code[cy][cx := symbol]];
      }
    }

    /** new_line: appends a row of spaces. */
    method NewLine()
      requires Valid()
      modifies this`code
      ensures Valid() && code == Grid.NewLine(old(code))
    {
      code := code + [Spaces(Columns)];
    }

    /** _move / move: one cell in the current direction, or NoDirection / OutOfBounds in place. */
    method Move() returns (ok: bool)
      requires Valid()
      modifies this`x, this`y, this`error, this`pointerMoved
      ensures Valid()
      ensures ok <==> (dx, dy) != (0, 0) && IsValid(code, old(x) + dx, old(y) + dy)
      ensures ok ==> (x, y) == (old(x) + dx, old(y) + dy) && error == old(error) &&
                     pointerMoved == (variant.Legacy? || old(pointerMoved))
      ensures !ok ==> (x, y) == (old(x), old(y)) && pointerMoved == old(pointerMoved) &&
                      error == Some(if (dx, dy) == (0, 0) then NoDirection else OutOfBounds)
    {
      if dx == 0 && dy == 0 {
        error := Some(NoDirection);
        return false;
      }
      if IsValid(code, x + dx, y + dy) {
        x := x + dx;
        y := y + dy;
        if variant == Legacy {
          pointerMoved := true;
        }
        return true;
      }
      error := Some(OutOfBounds);
      return false;
    }

    /** Move, with its effect stated as MoveSpec. */
    method MoveAsSpecified() returns (ok: bool)
      requires Valid()
      modifies this`x, this`y, this`error, this`pointerMoved
      ensures Valid() && (State(), ok) == MoveSpec(variant, old(State()))
    {
      ghost var s := State();
      ok := Move();
      MoveMatchesSpec(variant, s, State(), ok);
    }

    /** _jump / jump: underflow on an empty stack, else one move and then the scan loop. */
    method Jump()
      requires Valid() && UnitDir(dx, dy)
      modifies this`x, this`y, this`error, this`pointerMoved
      ensures Valid() && State() == JumpSpec(variant, old(State()))
    {
      if stack == [] {
        error := Some(StackUnderflow);
        return;
      }
      var ok := MoveAsSpecified();
      if !ok {
        error := Some(JumpedOutOfBounds);
        return;
      }
      ScanLoop();
    }

    /** The while loop of _jump: the pointer stops where Scan says. */
    method ScanLoop()
      requires Valid() && UnitDir(dx, dy) && stack != []
      requires variant.Legacy? ==> pointerMoved
      modifies this`x, this`y, this`error, this`pointerMoved
      ensures Valid()
      ensures var t := Scan(code, old(x), old(y), dx, dy, Top(stack));
        (x, y) == (t.0, t.1) && error == (if t.2 then old(error) else Some(JumpedOutOfBounds))
      ensures pointerMoved == old(pointerMoved)
    {
      ghost var target := Scan(code, x, y, dx, dy, Top(stack));
      while code[y][x] != stack[|stack| - 1]
        invariant IsValid(code, x, y) && error == old(error) && pointerMoved == old(pointerMoved)
        invariant Scan(code, x, y, dx, dy, Top(stack)) == target
        decreases Dist(code, x, y, dx, dy)
      {
        ghost var (px, py) := (x, y);
        var ok := Move();
        if !ok {
          assert Scan(code, x, y, dx, dy, Top(stack)) == (x, y, false);
          error := Some(JumpedOutOfBounds);
          return;
        }
        assert Scan(code, px, py, dx, dy, Top(stack)) == Scan(code, x, y, dx, dy, Top(stack));
      }
      assert target == (x, y, true);
    }

    /** _print; ch is None when the neighbour is outside the grid, and then is_chr raises, as it does outside the C int range. */
    method Print(ch: Option<int>) returns (raised: bool)
      modifies this`stdout, this`error
      ensures StepResult(State(), raised) == PrintSpec(old(State()), ch)
    {
      if ch.None? {
        return true;
      }
      var chr := IsChrCall(ch.value);
      if chr.None? {
        return true;
      }
      if chr.value {
        stdout := stdout + [ch.value];
      } else {
        error := Some(UnprintableOutput(ch.value));
      }
      return false;
    }

    method InputChar(c: int)
      modifies this`stdin, this`needsInput
      ensures State() == InputCharSpec(old(State()), c)
    {
      stdin := stdin + [c];
      needsInput := false;
    }

    method InputString(text: seq<CodePoint>)
      modifies this`stdin, this`needsInput
      ensures stdin == old(stdin) + text
      ensures needsInput == (old(needsInput) && text == [])
    {
      for i := 0 to |text|
        invariant stdin == old(stdin) + text[..i]
        invariant needsInput == (old(needsInput) && i == 0)
      {
        InputChar(text[i]);
      }
    }

    method Delete()
      modifies this`stack, this`error
      ensures State() == DeleteSpec(old(State()))
    {
      if stack != [] {
        stack := stack[..|stack| - 1];
      } else {
        error := Some(StackUnderflow);
      }
    }

    method Duplicate()
      modifies this`stack, this`error
      ensures State() == DuplicateSpec(old(State()))
    {
      if stack != [] {
        stack := stack + [stack[|stack| - 1]];
      } else {
        error := Some(StackUnderflow);
      }
    }

    /** _add; a None addend raises when there is a top to add it to. */
    method Add(addend: Option<int>) returns (raised: bool)
      modifies this`stack, this`error
      ensures StepResult(State(), raised) == CombineSpec(old(State()), addend, false)
    {
      if stack == [] {
        error := Some(StackUnderflow);
        return false;
      }
      if addend.None? {
        return true;
      }
      stack := stack[|stack| - 1 := stack[|stack| - 1] + addend.value];
      return false;
    }

    /** _subtract */
    method Subtract(subtrahend: Option<int>) returns (raised: bool)
      modifies this`stack, this`error
      ensures StepResult(State(), raised) == CombineSpec(old(State()), subtrahend, true)
    {
      if stack == [] {
        error := Some(StackUnderflow);
        return false;
      }
      if subtrahend.None? {
        return true;
      }
      stack := stack[|stack| - 1 := stack[|stack| - 1] - subtrahend.value];
      return false;
    }

    method Rotate(clockwise: bool)
      modifies this`dx, this`dy
      ensures (dx, dy) == Rotated(old(dx), old(dy), clockwise)
    {
      var swap := dx;
      dx := dy;
      dy := swap;
      if clockwise {
        dx := -dx;
      } else {
        dy := -dy;
      }
    }

    /** One step of execution; raised is true when the Python call would raise. */
    method Step() returns (raised: bool)
      requires Valid()
      modifies this
      ensures Valid()
      ensures StepResult(State(), raised) == StepSpec(variant, old(State()))
    {
      if Blocked(State()) {
        return false;
      }
      var c := code[y][x];
      if !IsPrintable(c, false) {
        error := Some(InvalidInstruction(c));
        return !IsChr(c);
      }
      raised := Dispatch(Decode(c));
      if raised {
        return;
      }
      if !Blocked(State()) {
        var _ := MoveAsSpecified();
      }
    }

    /** The instruction table of step, before the final move. */
    method Dispatch(op: Op) returns (raised: bool)
      requires Valid()
      modifies this
      ensures StepResult(State(), raised) == Execute(variant, old(State()), op)
    {
      raised := false;
      if op.Turn? || op.Jump? || op.RotateIfNegative? || op.RotateIfPositive? || op.Directive? {
        Steer(op);
      } else if op.Delete? || op.Duplicate? || op.Add? || op.Subtract? || op.Push? || op.PopTo? {
        raised := StackOp(op);
      } else if op.Print? || op.Input? || op.WriteEof? {
        raised := CellOp(op);
      } else if op.Unknown? {
        error := Some(InvalidInstruction(code[y][x]));
      }
    }

    /** The instructions that set or turn the direction, and the jumps. */
    method Steer(op: Op)
      requires Valid()
      requires op.Turn? || op.Jump? || op.RotateIfNegative? || op.RotateIfPositive? || op.Directive?
      modifies this`x, this`y, this`dx, this`dy, this`error, this`pointerMoved
      ensures StepResult(State(), false) == Execute(variant, old(State()), op)
    {
      match op {
        case Turn(h) =>
          dx, dy := h.Dx(), h.Dy();
        case Jump(h) =>
          dx, dy := h.Dx(), h.Dy();
          Jump();
        case RotateIfNegative =>
          RotateIf(false);
        case RotateIfPositive =>
          RotateIf(true);
        case Directive =>
          Directive();
      }
    }

    /** The instructions that change the stack. */
    method StackOp(op: Op) returns (raised: bool)
      requires Valid()
      requires op.Delete? || op.Duplicate? || op.Add? || op.Subtract? || op.Push? || op.PopTo?
      modifies this`code, this`stack, this`error
      ensures StepResult(State(), raised) == Execute(variant, old(State()), op)
    {
      raised := false;
      if op.Add? || op.Subtract? {
        raised := Arithmetic(op);
      } else {
        match op {
          case Delete =>
            Delete();
          case Duplicate =>
            Duplicate();
          case Push(side) =>
            raised := Push(side);
          case PopTo(side) =>
            PopTo(side);
        }
      }
    }

    /** A and a, R and r. */
    method Arithmetic(op: Op) returns (raised: bool)
      requires Valid()
      requires op.Add? || op.Subtract?
      modifies this`stack, this`error
      ensures StepResult(State(), raised) == Execute(variant, old(State()), op)
    {
      if op.Add? {
        raised := Add(Get(code, x, y + op.side.Dy()));
      } else {
        raised := Subtract(Get(code, x, y + op.side.Dy()));
      }
    }

    /** The instructions that print, read input or write EOT. */
    method CellOp(op: Op) returns (raised: bool)
      requires Valid()
      requires op.Print? || op.Input? || op.WriteEof?
      modifies this`code, this`stdout, this`stdin, this`needsInput, this`error
      ensures StepResult(State(), raised) == Execute(variant, old(State()), op)
    {
      raised := false;
      match op {
        case Print(side) =>
          raised := Print(Get(code, x, y + side.Dy()));
        case Input(side) =>
          Input(side);
        case WriteEof(side) =>
          Put(Eot, x, y + side.Dy());
      }
    }

    /** G and g */
    method Input(side: Side)
      requires Valid()
      modifies this`code, this`stdin, this`needsInput
      ensures Valid() && State() == InputSpec(old(State()), side)
    {
      if |stdin| > 0 {
        var front := stdin[0];
        stdin := stdin[1..];
        Put(front, x, y + side.Dy());
      } else {
        needsInput := true;
      }
    }

    /** F and f */
    method PopTo(side: Side)
      requires Valid()
      modifies this`code, this`stack, this`error
      ensures Valid() && State() == PopToSpec(old(State()), side)
    {
      if stack != [] {
        var top := stack[|stack| - 1];
        stack := stack[..|stack| - 1];
        Put(top, x, y + side.Dy());
      } else {
        error := Some(StackUnderflow);
      }
    }

    /** S and s */
    method Push(side: Side) returns (raised: bool)
      requires Valid()
      modifies this`stack
      ensures StepResult(State(), raised) == PushSpec(old(State()), side)
    {
      var cell := Get(code, x, y + side.Dy());
      if cell.None? {
        return true;
      }
      stack := stack + [cell.value];
      return false;
    }

    /** X and x */
    method RotateIf(clockwise: bool)
      requires Valid()
      modifies this`dx, this`dy, this`error
      ensures State() == RotateIfSpec(old(State()), clockwise)
    {
      if stack == [] {
        error := Some(StackUnderflow);
      } else if (if clockwise then stack[|stack| - 1] > 0 else stack[|stack| - 1] < 0) {
        Rotate(clockwise);
      }
    }

    /** # */
    method Directive()
      requires Valid()
      modifies this`dx, this`dy, this`error
      ensures State() == DirectiveSpec(variant, old(State()))
    {
      if variant == Package {
        if x == 0 && y == 0 && Get(code, 1, 0) == Some('!' as int) {
          dx, dy := 0, 1;
        } else {
          error := Some(InvalidInstruction('#' as int));
        }
      }
    }

    /** code_to_string; None when some cell is outside the chr range (chr raises). */
    method CodeToString() returns (r: Option<seq<seq<CodePoint>>>)
      ensures r == ToText(code)
    {
      var rows: seq<seq<CodePoint>> := [];
      for cy := 0 to |code|
        invariant |rows| == cy
        invariant forall j :: 0 <= j < cy ==> rows[j] == code[j]
        invariant forall j, i :: 0 <= j < cy && 0 <= i < |code[j]| ==> IsChr(code[j][i])
      {
        var line: seq<CodePoint> := [];
        for cx := 0 to |code[cy]|
          invariant line == code[cy][..cx]
        {
          var c := code[cy][cx];
          if !IsChr(c) {
            return None;
          }
          line := line + [c];
        }
        assert line == code[cy];
        rows := rows + [line];
      }
      assert rows == code;
      return Some(rows);
    }

    /** stack_text_length of the legacy State. */
    method StackTextLength() returns (n: nat)
      ensures n == StackTextWidth(stack)
    {
      n := 0;
      for i := 0 to |stack|
        invariant n == StackTextWidth(stack[..i])
      {
        var c := stack[i];
        if IsPrintable(c, true) {
          n := n + 1;
        } else {
          n := n + |LegacyToPrintable(c, true)|;
        }
        assert stack[..i + 1][..i] == stack[..i];
      }
      assert stack[..|stack|] == stack;
    }
  }
}
