# Arghonaut execution engine in Dafny

Arghonaut runs Argh!, a two-dimensional stack language. A program is a grid
of integer character codes, exactly 80 columns wide. An instruction pointer
`(x, y)` moves across the grid in a direction `(dx, dy)`, and every cell it
enters is one instruction. The machine also has:

- an unbounded stack of integers;
- a first-in first-out input queue;
- an output text;
- a sticky `error`, set by the first failure;
- a `needs_input` flag that makes `G` or `g` wait for input.

The repository holds the engine twice:

- the package engine `ArghInterpreter` (`arghonaut/interpreter.py`), with its
  helpers `is_chr`, `is_printable` and `to_printable` (`arghonaut/common.py`);
- the legacy class `State` in the top-level script `arghonaut.py`, with its
  own copy of those helpers.

The model covers both with one class, `Interpreter.Interpreter`. Its
`variant` constant (`Package` or `Legacy`) selects the first two of the three
places where the legacy engine behaves differently; the third is carried by
separate members, `Codec.LegacyToPrintable` and
`Interpreter.Interpreter.StackTextLength`:

- `#` never turns and never fails in the legacy engine. It compares a cell
  (an integer) with the text `'!'`, which is never equal.
- The legacy `move` sets `pointer_moved`, and the legacy `reset` clears
  `pointer_moved` and `cursor_moved`.
- The legacy `to_printable` renders space as `"SP"` in long mode. The legacy
  engine also has `stack_text_length`.

The modules follow the structure of the program:

- `Codec` covers `is_chr`, `is_printable` and `to_printable`, the legacy
  renderer and the width of the rendered stack. `IsChr` is the range
  `0 <= c <= 0x10FFFF` that Python's `chr` accepts. `chr` first converts its
  argument to a C int and raises `OverflowError` outside that range. `is_chr`
  catches only `ValueError`, so `IsChrCall` returns None (the call raises)
  for such codes.
- `Grid` is the grid as a value: bounds-checked `get` and `put`, padding of
  source lines, `new_line` and `code_to_string`.
- `Semantics` holds `MachineState`, a snapshot of the interpreter's fields.
  It specifies every operation as a pure function on that snapshot:
  `MoveSpec`, `Scan`, `JumpSpec`, the per-instruction functions, `Execute`
  for one decoded instruction, and `StepSpec` for one call of `step`.
- `Interpreter` is the object. Its fields are updated in place, and each
  method is proved to leave the fields equal to the matching function of
  `Semantics` applied to the old fields. The jump keeps the source's `while`
  loop. The constructor, `code_to_string`, `input_string` and
  `stack_text_length` keep their loops too.
- `Properties` holds the lemmas about the specification functions:
  - the jump scan lands on the first matching cell or on the edge;
  - rotation;
  - blocked and invalid steps;
  - the directive;
  - the stack, output and input instructions;
  - reset;
  - the two engines agree on every instruction other than `#`.

Some behaviour of the Python code is modelled explicitly:

- An uncaught Python exception is the `raised` result of `Step` and of the
  helpers that can raise. The state is then the one just before the raise.
- A non-printable code under the pointer first sets `InvalidInstruction`.
  After that, `chr` raises for codes outside its range.
- Python texts are sequences of code points (`CodePoint`, an int in
  `0..0x10FFFF`), because Dafny's `char` excludes surrogates.
- The error strings are the `Error` datatype.

Where the comments and the code disagree, the model follows the code:

- The comment above `X` in `step` says it turns clockwise on a negative top.
  The code calls `_rotate(clockwise=False)`.
- The comment above `x` says it turns counter-clockwise on a positive top.
  The code calls `_rotate(clockwise=True)`.
- The model's `RotateIfNegative` and `RotateIfPositive` use the directions
  passed in the code.

## Model

| member | source | states |
|---|---|---|
| Codec.IsChr | arghonaut/common.py:20-28 | Every code chr accepts fits a C int, so for those codes the call to chr cannot overflow. |
| Codec.IsChrCall | arghonaut/common.py:20-28 | is_chr raises exactly for codes outside the C int range. Otherwise it returns whether 0 <= c <= 0x10FFFF, and every chr-range code gives true. |
| Codec.IsPrintable | arghonaut/common.py:31-40 | A printable code is in chr range. Newline, tab, return and EOT are never printable. In long mode a code is printable exactly when it is short-printable and not the space. |
| Codec.Numeral | arghonaut/common.py:54-67 | The digits `str`/`hex` write: at least one digit, every digit valid in the base, and a leading zero exactly for 0. |
| Codec.NumeralRoundTrip | arghonaut/common.py:64-67 | Reading a numeral back in its base gives the number. |
| Codec.ToPrintable | arghonaut/common.py:43-70 | Every printable code is returned as its own character in both modes, so long-mode space is `" "`. Short mode always gives one character. In long mode the result is one character exactly for printable codes. |
| Codec.LongFormRoundTrip | arghonaut/common.py:43-70 | The long-mode rendering of any code can be read back to that code. |
| Codec.LongFormInjective | arghonaut/common.py:43-70 | Two codes with the same long rendering are equal. |
| Codec.LowCodesAreDigits | arghonaut/common.py:54-55 | Codes 0 to 9 render as their decimal digit, escaped by a backslash in long mode. So tab gives "9" and EOT gives "4". |
| Codec.TabAndEofBranchesUnreachable | arghonaut/common.py:60-63 | No code renders as "EOF" or "\t" in long mode. Short "E" and "t" come only from the letters themselves. |
| Codec.ShortForm | arghonaut/common.py:51-70 | In short mode the result has one character: the character itself, the code's own decimal digit for 0..9, n exactly for newline, r exactly for return, - for negatives, or ? for every other non-printable code above 9. |
| Codec.LongForm | arghonaut/common.py:54-67 | In long mode a code that is not its own character renders as a backslash and its digit for 0..9, as "\\n" for newline and "\\r" for return, as "-" and the decimal numeral of its magnitude when negative, and as "0x" and its hex numeral otherwise. |
| Codec.LegacyToPrintable | arghonaut.py:58-97 | The legacy renderer is never empty and equals the package one in short mode. In long mode it gives "SP" for the space and the package long rendering for every other code, so it is one character exactly for long-printable codes. |
| Codec.StackTextWidth | arghonaut.py:241-254 | The summed width of the stack's rendered entries is at least the stack's length. |
| Codec.StackTextWidthIsRenderedLength | arghonaut.py:241-254 | The stack width equals the length of the stack rendered entry by entry in long mode. |
| Codec.StackTextWidthBounds | arghonaut.py:241-254 | The width is at least the stack's length. It equals the length exactly when every entry is long-printable. |
| Grid.IsValid | arghonaut/interpreter.py:114-116 | 0 <= y < rows and 0 <= x < the row's width. It has no contract of its own; Grid.ValidOnFullRows and Grid.Get state what it means. |
| Grid.ValidOnFullRows | arghonaut/interpreter.py:114-116 | On a grid of full rows, is_valid holds exactly for 0 <= x < 80 and 0 <= y < the row count. |
| Grid.Get | arghonaut/interpreter.py:85-91 | Returns the cell exactly when (x, y) is valid and None otherwise. On a well-formed grid, valid means 0 <= x < 80 and 0 <= y < rows. |
| Grid.Put | arghonaut/interpreter.py:101-104 | Keeps the row count and every row width. Writes the symbol at a valid (x, y) and leaves every other cell alone. Is a no-op off the grid. |
| Grid.PadRow | arghonaut/interpreter.py:29-33 | Every row has 80 cells, each the line's character or a space past its end. |
| Grid.FromLines | arghonaut/interpreter.py:26-33 | One padded row per source line, so the grid is well formed. |
| Grid.PadRowPadsOrTruncates | arghonaut/interpreter.py:29-33 | A short line is padded with code 32. A long line is cut at 80. |
| Grid.NewLine | arghonaut/interpreter.py:410-416 | Appends one row of 80 spaces and keeps the earlier rows. |
| Grid.ToText | arghonaut/interpreter.py:418-425 | The exported text exists exactly when every cell is in chr range. It then has the grid's rows. |
| Grid.PadRowOfFullRow | arghonaut/interpreter.py:29-33 | Padding a line of 80 characters leaves it unchanged. |
| Grid.ExportImportRoundTrip | arghonaut/interpreter.py:418-425 | Building a grid from `code_to_string()` reproduces the grid when every cell is in chr range. |
| Grid.ImportExport | arghonaut/interpreter.py:20-33 | A freshly loaded grid can always be exported, and the export is its padded lines. |
| Semantics.Instruction | arghonaut/interpreter.py:66-69 | The cell under the pointer is what get returns there, so it is always on the grid. |
| Semantics.Done | arghonaut/interpreter.py:71-74 | The machine is done exactly when the symbol under the pointer decodes to the quit instruction q. |
| Semantics.Blocked | arghonaut/interpreter.py:76-83 | Done, an error or waiting for input. It has no contract of its own; Properties.StepBlocked and Properties.StepsFromBlocked state what it means for step. |
| Semantics.Adjacent | arghonaut/interpreter.py:93-99 | The neighbour above or below exists exactly when that row exists, and it is the cell in the pointer's column. |
| Semantics.ResetSpec | arghonaut/interpreter.py:49-64 | Reset keeps the grid and the invariant. The full effect is stated by Properties.ResetProperties. |
| Semantics.Initial | arghonaut/interpreter.py:20-47 | The constructor's state satisfies the machine invariant. |
| Semantics.InputCharSpec | arghonaut/interpreter.py:175-182 | The code joins the back of the queue and `needs_input` is cleared. Nothing else changes. |
| Semantics.MoveSpec | arghonaut/interpreter.py:118-136 | Succeeds exactly when the direction is non-zero and the target is on the grid. Success advances by (dx, dy). A zero direction gives NoDirection and an off-grid target gives OutOfBounds, with the pointer unchanged. Only the legacy engine sets pointer_moved, and only on success. |
| Semantics.MoveMatchesSpec | arghonaut.py:363-381 | A state that meets MoveSpec's contract field by field is MoveSpec's result, for both engines. |
| Semantics.Scan | arghonaut/interpreter.py:154-157 | The loop ends on a valid cell no further from the edge than its start. |
| Semantics.JumpSpec | arghonaut/interpreter.py:138-157 | Keeps the invariant and changes only the pointer, the error and pointer_moved. An empty stack gives StackUnderflow. Otherwise the error is unchanged or JumpedOutOfBounds. |
| Semantics.Rotated | arghonaut/interpreter.py:237-246 | Clockwise maps (dx, dy) to (-dy, dx). Counter-clockwise maps it to (dy, -dx). Legal directions stay legal. |
| Semantics.PrintSpec | arghonaut/interpreter.py:159-173 | A code in chr range grows stdout by exactly that code. Any other C int sets UnprintableOutput and leaves stdout alone. A missing neighbour (None) or a code outside the C int range raises, with the state unchanged. |
| Semantics.DeleteSpec | arghonaut/interpreter.py:193-202 | Pops the top, or sets StackUnderflow with nothing else changed. |
| Semantics.DuplicateSpec | arghonaut/interpreter.py:204-213 | Pushes a copy of the top, or sets StackUnderflow with nothing else changed. |
| Semantics.CombineSpec | arghonaut/interpreter.py:215-235 | Replaces only the top with top + operand (`_add`) or top - operand (`_subtract`). An empty stack gives StackUnderflow. A None operand raises. |
| Semantics.Decode | arghonaut/interpreter.py:264-404 | Every symbol that is an instruction is printable and not the space. |
| Semantics.PutAdjacent | arghonaut/interpreter.py:106-112 | Writing above or below the pointer changes only the grid, through Put, and keeps the invariant. |
| Semantics.InputSpec | arghonaut/interpreter.py:308-320 | Keeps the invariant. Its behaviour is stated by Properties.StepInput. |
| Semantics.PopToSpec | arghonaut/interpreter.py:338-350 | Keeps the invariant. Its behaviour is stated by Properties.PopToEffect and Properties.StepUnderflow. |
| Semantics.PushSpec | arghonaut/interpreter.py:368-374 | Keeps the invariant. A raise leaves the state unchanged. The push itself is stated by Properties.PushAndWriteEof. |
| Semantics.RotateIfSpec | arghonaut/interpreter.py:376-390 | Keeps the invariant. Its behaviour is stated by Properties.RotateIfEffect. |
| Semantics.DirectiveSpec | arghonaut/interpreter.py:392-399 | Keeps the invariant. Its behaviour is stated by Properties.PackageDirective and Properties.LegacyDirectiveJustMoves. |
| Semantics.Execute | arghonaut/interpreter.py:264-404 | Every instruction keeps the invariant. An instruction that raises leaves the state as it was. |
| Semantics.StepSpec | arghonaut/interpreter.py:248-408 | A step keeps the machine invariant. |
| Interpreter.Interpreter.constructor | arghonaut/interpreter.py:20-47 | The nested loops build the padded grid, and the new object's fields are Initial(lines). |
| Interpreter.Interpreter.Reset | arghonaut/interpreter.py:49-64 | The fields become ResetSpec of the old fields. |
| Interpreter.Interpreter.ResetPointer | arghonaut/interpreter.py:53-58 | Only the pointer and direction change, and they become zero. |
| Interpreter.Interpreter.ResetIo | arghonaut/interpreter.py:59-64 | Only the stack, stdout, stdin, needs_input and error change, and they become empty, false or None. |
| Interpreter.Interpreter.Put | arghonaut/interpreter.py:101-104 | Only the grid changes, and it becomes Grid.Put of the old grid. |
| Interpreter.Interpreter.NewLine | arghonaut/interpreter.py:410-416 | Only the grid changes, and it becomes Grid.NewLine of the old grid. |
| Interpreter.Interpreter.Move | arghonaut/interpreter.py:118-136 | Succeeds exactly when the direction is non-zero and the target is valid. **On success:** the pointer advances and the error is kept. **On failure:** the pointer stays and NoDirection or OutOfBounds is set. The legacy pointer_moved is set only on success. |
| Interpreter.Interpreter.MoveAsSpecified | arghonaut.py:363-381 | The fields and the result are MoveSpec of the old fields. |
| Interpreter.Interpreter.Jump | arghonaut/interpreter.py:138-157 | The fields become JumpSpec of the old fields. |
| Interpreter.Interpreter.ScanLoop | arghonaut/interpreter.py:154-157 | The while loop leaves the pointer where Scan stops. It sets JumpedOutOfBounds exactly when Scan ran off the grid, and leaves pointer_moved alone. |
| Interpreter.Interpreter.Print | arghonaut/interpreter.py:159-173 | The fields and the raise flag are PrintSpec of the old fields. |
| Interpreter.Interpreter.InputChar | arghonaut/interpreter.py:175-182 | The fields become InputCharSpec of the old fields. |
| Interpreter.Interpreter.InputString | arghonaut/interpreter.py:184-191 | The queue gains the text's codes at its back, in order. needs_input stays set only for an empty text. |
| Interpreter.Interpreter.Delete | arghonaut/interpreter.py:193-202 | The fields become DeleteSpec of the old fields. |
| Interpreter.Interpreter.Duplicate | arghonaut/interpreter.py:204-213 | The fields become DuplicateSpec of the old fields. |
| Interpreter.Interpreter.Add | arghonaut/interpreter.py:215-224 | The fields and the raise flag are CombineSpec of the old fields with the addend. |
| Interpreter.Interpreter.Subtract | arghonaut/interpreter.py:226-235 | The fields and the raise flag are CombineSpec of the old fields with the negated subtrahend. |
| Interpreter.Interpreter.Rotate | arghonaut/interpreter.py:237-246 | The swap-then-negate code leaves (dx, dy) equal to Rotated of the old direction. |
| Interpreter.Interpreter.Step | arghonaut/interpreter.py:248-408 | The fields and the raise flag are StepSpec of the old fields, and the invariant is kept. |
| Interpreter.Interpreter.Dispatch | arghonaut/interpreter.py:264-404 | The fields and the raise flag are Execute of the old fields for the decoded instruction. |
| Interpreter.Interpreter.Steer | arghonaut/interpreter.py:264-298 | For h l k j H L K J X x #, the fields are Execute of the old fields. |
| Interpreter.Interpreter.StackOp | arghonaut/interpreter.py:322-374 | For D d A a R r S s F f, the fields and the raise flag are Execute of the old fields. |
| Interpreter.Interpreter.Arithmetic | arghonaut/interpreter.py:352-366 | For A a R r, the fields and the raise flag are Execute of the old fields. |
| Interpreter.Interpreter.CellOp | arghonaut/interpreter.py:300-336 | For P p G g E e, the fields and the raise flag are Execute of the old fields. |
| Interpreter.Interpreter.Input | arghonaut/interpreter.py:308-320 | The fields become InputSpec of the old fields. |
| Interpreter.Interpreter.PopTo | arghonaut/interpreter.py:338-350 | The fields become PopToSpec of the old fields. |
| Interpreter.Interpreter.Push | arghonaut/interpreter.py:368-374 | The fields and the raise flag are PushSpec of the old fields. |
| Interpreter.Interpreter.RotateIf | arghonaut/interpreter.py:376-390 | The fields become RotateIfSpec of the old fields. |
| Interpreter.Interpreter.Directive | arghonaut/interpreter.py:392-399 | The fields become DirectiveSpec of the old fields. |
| Interpreter.Interpreter.CodeToString | arghonaut/interpreter.py:418-425 | The nested loops return ToText of the grid: the rows as texts, or None when a cell is outside the chr range. |
| Interpreter.Interpreter.StackTextLength | arghonaut.py:241-254 | The accumulator loop returns StackTextWidth of the stack. |
| Properties.AheadValid | arghonaut/interpreter.py:114-116 | With a unit direction, the cell k steps ahead is on the grid exactly when k is at most the distance to the edge. |
| Properties.MoveTowardEdge | arghonaut/interpreter.py:118-136 | A move with a unit direction succeeds exactly when the pointer is not on the edge it heads for. A successful move brings that edge one cell closer, which is why the jump loop terminates. |
| Properties.CellShift | arghonaut/interpreter.py:154-157 | The cells ahead of the next cell are the cells one step further ahead of this one. |
| Properties.ScanFromNext | arghonaut/interpreter.py:150-157 | A scan from the next cell stops k >= 1 cells ahead, and no cell between holds the top. It stops on a matching cell, or on the edge when no later cell matches. |
| Properties.ScanFindsFirstMatch | arghonaut/interpreter.py:154-157 | The loop stops on the first cell, counting the current one, that holds the top. When no cell up to the edge holds it, the loop fails on the last valid cell. |
| Properties.JumpTarget | arghonaut/interpreter.py:150-157 | The cell where one move followed by the scan leaves the pointer is always valid. |
| Properties.JumpTargetFirstMatch | arghonaut/interpreter.py:150-157 | The jump target is the first cell after the pointer that holds the top. When there is none, the target is the edge cell and the jump fails. |
| Properties.JumpFromEdge | arghonaut/interpreter.py:150-152 | When the first move leaves the grid, the pointer and pointer_moved are unchanged and JumpedOutOfBounds is set. |
| Properties.JumpPastFirstMove | arghonaut/interpreter.py:150-157 | After a successful first move, the pointer goes where the scan from the next cell stops. The legacy engine records the move. |
| Properties.JumpUnfold | arghonaut/interpreter.py:138-157 | With a stack value, the jump puts the pointer on the jump target. It fails exactly when the target was not a match. |
| Properties.JumpFindsFirstMatch | arghonaut/interpreter.py:138-157 | An empty stack underflows in place. Otherwise the pointer moves at least once and stops on the first later cell holding the top. If no cell up to the edge holds it, the pointer ends on the last valid cell with JumpedOutOfBounds. The legacy engine sets pointer_moved exactly when it left its cell. |
| Properties.RotationsAreInverse | arghonaut/interpreter.py:237-246 | Turning one way and then the other restores the direction. |
| Properties.FourRotationsIdentity | arghonaut/interpreter.py:237-246 | Four quarter turns in one sense are the identity. |
| Properties.ClockwiseCompass | arghonaut/interpreter.py:237-246 | With y growing downward, clockwise takes east to south, south to west, west to north and north to east. |
| Properties.RotateIfEffect | arghonaut/interpreter.py:376-390 | X turns counter-clockwise exactly when the top is negative, and x turns clockwise exactly when the top is positive. Both keep the stack, grid and pointer. Both set StackUnderflow, and nothing else, on an empty stack. |
| Properties.StepBlocked | arghonaut/interpreter.py:255-256 | A step on a done, failed or waiting machine changes nothing and does not raise. |
| Properties.StepsFromBlocked | arghonaut/interpreter.py:76-83 | Any number of steps from a blocked machine change nothing. |
| Properties.Steps | arghonaut/interpreter.py:248-408 | Repeated steps keep the machine invariant. |
| Properties.StepInvalid | arghonaut/interpreter.py:259-262 | A non-printable code, or a printable symbol that is no instruction, sets InvalidInstruction and nothing else, and the pointer stays. The call raises exactly when the code is outside chr range. |
| Properties.InstructionSet | arghonaut/interpreter.py:264-404 | A symbol decodes to an instruction exactly when it is one of the 28 symbols of the table. |
| Properties.PackageDirective | arghonaut/interpreter.py:392-404 | At (0, 0) with `!` in cell (1, 0), `#` turns down and moves on. Anywhere else it is InvalidInstruction and the pointer stays. |
| Properties.LegacyDirectiveJustMoves | arghonaut.py:620-632 | In the legacy engine `#` never turns and never fails, and the step only attempts the move. |
| Properties.StepJump | arghonaut/interpreter.py:280-298 | H L K J set the heading and jump. Then step moves one more cell, unless the jump left the machine blocked. |
| Properties.StepUnderflow | arghonaut/interpreter.py:322-390 | On an empty stack, D d A a R r F f X x set StackUnderflow. The stack, grid and pointer stay as they were. |
| Properties.DeleteAndDuplicate | arghonaut/interpreter.py:322-328 | With a stack value, D pops it and d pushes a copy of the top. Nothing else changes. |
| Properties.ArithmeticEffect | arghonaut/interpreter.py:352-366 | With a stack value and an on-grid neighbour, A/a/R/r replace only the top with top plus or minus the neighbour. |
| Properties.PopToEffect | arghonaut/interpreter.py:338-350 | With a stack value, F/f pop the top into the cell above or below. The write happens only if that cell is on the grid. |
| Properties.PushAndWriteEof | arghonaut/interpreter.py:330-336 | S/s push an on-grid neighbour. E/e write EOT into the neighbour through Put, changing nothing else. |
| Properties.StepPrint | arghonaut/interpreter.py:300-306 | Given an on-grid neighbour, P/p with a chr-range code grow stdout by exactly that code and move on. Any other C int sets UnprintableOutput with stdout unchanged. The step raises exactly when the code is outside the C int range, and then nothing changes. |
| Properties.StepInput | arghonaut/interpreter.py:308-320 | With a non-empty queue, G and g store its front in the neighbour and move on. With an empty queue they set needs_input and the pointer stays. |
| Properties.InputTakesFront | arghonaut.py:506-520 | The queue is FIFO: G/g store the front element and leave the rest of the queue in order. |
| Properties.InputSupplied | arghonaut/interpreter.py:175-182 | A machine waiting on G/g that is given one code holds just that code and is no longer waiting. |
| Properties.InputResumes | arghonaut/interpreter.py:308-320 | After input_char, the waiting machine can step again: the next step stores the supplied code and empties the queue. |
| Properties.ResetProperties | arghonaut.py:128-146 | Reset yields a valid machine with the pointer at (0, 0), no direction, an empty stack, empty stdout and stdin, no waiting and no error. It keeps the grid, ex, ey and render_start. It clears the legacy flags, keeps the package flags, and applying it twice changes nothing more. |
| Properties.ResetOfInitial | arghonaut.py:106-126 | Resetting a freshly built machine changes nothing. |
| Properties.MoveAgrees | arghonaut.py:363-381 | The two engines' moves agree apart from pointer_moved. |
| Properties.JumpAgrees | arghonaut.py:383-400 | The two engines' jumps agree apart from pointer_moved. |
| Properties.EnginesAgreeExceptDirective | arghonaut.py:430-632 | On every symbol other than `#`, the legacy step and the package step agree apart from pointer_moved, including whether they raise. |

## Left out

- Curses rendering and the editor are UI and terminal state:
  - `render`, `render_char` and the render-range helpers;
  - `move_cursor`;
  - the key loop in `arghonaut.py`.
- The fields `cursor_moved`, `ex`, `ey` and `render_start` are carried only as far as `reset` touches them.
- File reading (`read_lines`), argument parsing and the batch driver loop are I/O.
- Echoing printed characters to the real standard output in batch mode is I/O. Only the `stdout` buffer is modelled.
- The exact error strings are replaced by the `Error` datatype. This includes the legacy print message that lacks its f-string prefix.
- The thread-safety of the legacy `queue.Queue` does not matter to a sequential model. The queue is a sequence whose front is `stdin[0]`.
- An empty program is not modelled. `instruction` raises `IndexError` on it, so the constructor requires at least one line.
- Semantics.PushSpec: S/s with the neighbour off the grid push Python's `None`. That value may fail later or never: `D` pops it, a jump with it on top matches only a cell into which `F`/`f` wrote `None`, and `F`/`f` write it into the grid, where a later step on that cell raises. The model ends the S/s step itself with `raised` and the state unchanged, instead of carrying `None` on the stack.
- Semantics.CombineSpec: A/a/R/r with a value on the stack and the neighbour off the grid raise `TypeError`. On an empty stack they set StackUnderflow first and do not raise. The model raises with the state as it was, which is also what Python leaves behind.
- Semantics.PrintSpec: `_print(None)` raises `TypeError`, which `is_chr` does not catch. The model raises with the state unchanged.
- Codec.ToPrintable and Codec.LongForm: CPython's `str()` raises `ValueError` for an int with more than 4300 decimal digits (its default int-to-str limit), so long-mode `to_printable` raises for a negative code of that size, in both engines. The model assumes no such limit and renders every negative code; the hex branch has no limit in Python either.
- Semantics.StepSpec: for a code outside the chr range, the error is set and then `chr` raises. The model returns that state with `raised`.
- The `batch` parameter of `step` and `_print` is not modelled, because it only controls the echo.
- The package engine has no `pointer_moved`, `cursor_moved`, `ex`, `ey` or `render_start`. The model keeps these fields in both variants, and the package variant never changes them.
- The package jump and the legacy jump share one method, because their code is the same apart from the legacy `move` setting `pointer_moved`.
- Interpreter.Interpreter.ScanLoop, MoveAsSpecified, ResetPointer, ResetIo, Steer, StackOp, Arithmetic and CellOp are not separate functions in the Python code. They split `_jump`, `reset` and the branches of `step` into pieces that are proved one at a time.
