/**
 * The controller that ends a cell edit in the spreadsheet UI.
 *
 * It keeps the editor's last visibility and a three-state record of whether
 * the user has clicked inside the open editor, and reacts to three events:
 * a visibility change of the cell editor, a pointer-down in the editor, and
 * the "arrow key while editing" command. Hiding the editor writes the edited
 * text back into the cell and moves the selection. Commands the controller
 * dispatches are appended to `trace`, oldest first.
 */
module EndEdit {
  import opened Wrappers

  datatype KeyCode = Enter | Tab | Esc | ArrowUp | ArrowDown | ArrowLeft | ArrowRight | OtherKey(code: int)

  datatype Direction = Up | Right | Down | Left

  /** `CursorChange`: editor closed, editor just opened, user has clicked in the open editor. */
  datatype CursorState = InitialState | StartEditor | CursorChange

  /** `IEditorBridgeServiceVisibleParam`, as far as this controller reads it. */
  datatype VisibleParam = VisibleParam(visible: bool, keycode: Option<KeyCode>)

  /** A primitive cell value `v`. */
  datatype Primitive = Text(s: string) | Number(n: real) | Boolean(b: bool)

  /** The body of the editor's document: its character stream and its number of text runs. */
  datatype DocumentBody = DocumentBody(dataStream: string, textRunCount: nat)

  datatype DocumentSnapshot = DocumentSnapshot(body: Option<DocumentBody>)

  /** `ICellData` restricted to the fields written here: value, display text, formula, rich text. */
  datatype CellData = CellData(v: Option<Primitive>, m: Option<string>, f: Option<string>, p: Option<DocumentSnapshot>)

  const EmptyCell: CellData := CellData(None, None, None, None)

  /** What the editor bridge knows about the edited cell; `document` is the layout's document model. */
  datatype EditorBridgeState = EditorBridgeState(
    unitId: string, sheetId: string, row: int, column: int, document: Option<DocumentSnapshot>)

  /** An executed command as the command listener sees it. */
  datatype CommandInfo = SetCellEditVisibleArrow(params: VisibleParam) | OtherCommand(id: string)

  /** The commands, operations and service calls the controller issues. */
  datatype Effect =
    | ExitInput
    | MoveSelectionEnterAndTab(keycode: KeyCode, direction: Direction)
    | MoveSelection(direction: Direction)
    | SetRangeValues(unitId: string, sheetId: string, row: int, column: int, value: CellData)
    | MoveCursorInEditor(direction: Direction)
    | ChangeVisible(params: VisibleParam)

  /**
   * What the hide path reads from its collaborators: the bridge state, the
   * worksheets by (unit, sheet) id with their cells by (row, column), the
   * keys that move the selection, `isFormulaString`, and the
   * AFTER_CELL_EDIT interceptor chain.
   */
  datatype EditEnvironment = EditEnvironment(
    bridgeState: Option<EditorBridgeState>,
    worksheets: map<(string, string), map<(int, int), CellData>>,
    moveSelectionKeys: set<KeyCode>,
    isFormulaString: string -> bool,
    afterCellEdit: (CellData, string, string, int, int) -> CellData)

  /** The marker an empty document ends with. */
  const EmptyDocumentValue: string := "\r\n"

  /** `data.substring(data.length - 2, data.length)`: a negative start is clamped to 0. */
  function LastTwo(data: string): (r: string)
    ensures |r| == if |data| < 2 then |data| else 2
    ensures r == data[|data| - |r|..]
  {
    if |data| >= 2 then data[|data| - 2..] else data
  }

  /** The edited text: the data stream without its trailing empty-document marker. */
  function StripEmptyDocumentValue(data: string): (r: string)
    ensures LastTwo(data) == EmptyDocumentValue ==> |data| >= 2 && r + EmptyDocumentValue == data
    ensures LastTwo(data) != EmptyDocumentValue ==> r == data
  {
    if LastTwo(data) == EmptyDocumentValue then data[..|data| - 2] else data
  }

  /** Appending the marker and stripping it gives the text back. */
  lemma StripAfterAppend(s: string)
    ensures StripEmptyDocumentValue(s + EmptyDocumentValue) == s
  {
    var d := s + EmptyDocumentValue;
    assert LastTwo(d) == EmptyDocumentValue;
    assert d[..|d| - 2] == s;
  }

  /** Only one marker is ever removed. */
  lemma StripRemovesOneMarker(s: string)
    ensures StripEmptyDocumentValue(s + EmptyDocumentValue + EmptyDocumentValue) == s + EmptyDocumentValue
  {
    StripAfterAppend(s + EmptyDocumentValue);
  }

  /**
   * The write-back decision: for rich text (more than one run) the snapshot
   * is stored as `p`; otherwise nothing is written when the stripped text is
   * already the cell's `v`, a formula sets only `f`, and any other text sets
   * both `v` and `m`.
   */
  function CellAfterEdit(cell: CellData, snapshot: DocumentSnapshot, body: DocumentBody, isFormulaString: string -> bool)
    : (r: Option<CellData>)
    ensures body.textRunCount > 1 ==> r == Some(cell.(p := Some(snapshot)))
    ensures body.textRunCount <= 1 ==>
      var text := StripEmptyDocumentValue(body.dataStream);
      && (r.None? <==> cell.v == Some(Text(text)))
      && (r.Some? && isFormulaString(text) ==> r.value == cell.(f := Some(text)))
      && (r.Some? && !isFormulaString(text) ==> r.value == cell.(v := Some(Text(text)), m := Some(text)))
  {
    if body.textRunCount > 1 then Some(cell.(p := Some(snapshot)))
    else
      var text := StripEmptyDocumentValue(body.dataStream);
      if cell.v == Some(Text(text)) then None
      else if isFormulaString(text) then Some(cell.(f := Some(text)))
      else Some(cell.(v := Some(Text(text)), m := Some(text)))
  }

  /**
   * The plain-text decision settles: deciding again on the decided cell
   * (as it is before the interceptor), with the same document, writes
   * nothing.
   */
  lemma PlainWriteBackSettles(cell: CellData, snapshot: DocumentSnapshot, body: DocumentBody, isFormulaString: string -> bool)
    requires body.textRunCount <= 1
    requires !isFormulaString(StripEmptyDocumentValue(body.dataStream))
    requires CellAfterEdit(cell, snapshot, body, isFormulaString).Some?
    ensures CellAfterEdit(CellAfterEdit(cell, snapshot, body, isFormulaString).value, snapshot, body, isFormulaString).None?
  {
  }

  /**
   * The formula decision never settles: the formula is stored in `f` while
   * the unchanged check looks at `v`, so deciding again on the decided cell
   * (as it is before the interceptor), with the same document, writes the
   * same cell again.
   */
  lemma FormulaWriteBackRepeats(cell: CellData, snapshot: DocumentSnapshot, body: DocumentBody, isFormulaString: string -> bool)
    requires body.textRunCount <= 1
    requires isFormulaString(StripEmptyDocumentValue(body.dataStream))
    requires CellAfterEdit(cell, snapshot, body, isFormulaString).Some?
    ensures var written := CellAfterEdit(cell, snapshot, body, isFormulaString).value;
      CellAfterEdit(written, snapshot, body, isFormulaString) == Some(written)
  {
  }

  /** The `switch` of `_moveCursor`: the selection's direction for a key, LEFT by default. */
  function CursorDirection(k: KeyCode): (d: Direction)
    ensures d == Down <==> k == Enter || k == ArrowDown
    ensures d == Right <==> k == Tab || k == ArrowRight
    ensures d == Up <==> k == ArrowUp
  {
    match k
    case Enter => Down
    case Tab => Right
    case ArrowDown => Down
    case ArrowUp => Up
    case ArrowLeft => Left
    case ArrowRight => Right
    case _ => Left
  }

  /** `_moveInEditor`: the cursor's direction for a key, LEFT for every key but the other three arrows. */
  function EditorDirection(k: KeyCode): (d: Direction)
    ensures d == Down <==> k == ArrowDown
    ensures d == Right <==> k == ArrowRight
    ensures d == Up <==> k == ArrowUp
  {
    if k == ArrowDown then Down
    else if k == ArrowUp then Up
    else if k == ArrowRight then Right
    else Left
  }

  /**
   * `_moveCursor`: nothing for a missing key or one outside the move list;
   * ENTER and TAB move with the enter/tab selection command, every other
   * listed key with the plain selection move.
   */
  function MoveCursorCommand(keycode: Option<KeyCode>, moveSelectionKeys: set<KeyCode>): (r: Option<Effect>)
    ensures r.Some? <==> keycode.Some? && keycode.value in moveSelectionKeys
    ensures r.Some? && (keycode.value == Enter || keycode.value == Tab) ==>
      r.value == MoveSelectionEnterAndTab(keycode.value, CursorDirection(keycode.value))
    ensures r.Some? && keycode.value != Enter && keycode.value != Tab ==>
      r.value == MoveSelection(CursorDirection(keycode.value))
  {
    if keycode.None? || keycode.value !in moveSelectionKeys then None
    else
      var k := keycode.value;
      if k == Enter || k == Tab then Some(MoveSelectionEnterAndTab(k, CursorDirection(k)))
      else Some(MoveSelection(CursorDirection(k)))
  }

  /** The selection and the in-editor cursor move the same way for every key except ENTER and TAB. */
  lemma DirectionsAgreeExceptEnterTab(k: KeyCode)
    ensures CursorDirection(k) == EditorDirection(k) <==> k != Enter && k != Tab
  {
  }

  /**
   * The effects of hiding the editor: the editor's context is exited; then,
   * unless the key was ESC and as long as the bridge state and the document
   * exist, the selection move, and, when the worksheet and the document body
   * exist and the write-back decides to write, the cell write.
   */
  function ExitEffects(keycode: Option<KeyCode>, env: EditEnvironment): (r: seq<Effect>)
    ensures 1 <= |r| <= 3 && r[0] == ExitInput
    ensures forall i :: 0 <= i < |r| && r[i].SetRangeValues? ==> i == |r| - 1
  {
    [ExitInput] +
    if keycode == Some(Esc) then []
    else match env.bridgeState
      case None => []
      case Some(state) =>
        match state.document
        case None => []
        case Some(snapshot) =>
          var move := MoveCursorCommand(keycode, env.moveSelectionKeys);
          (if move.Some? then [move.value] else []) +
          WriteBackEffects(state, snapshot, env)
  }

  /** The cell write of the hide path, when there is one. */
  function WriteBackEffects(state: EditorBridgeState, snapshot: DocumentSnapshot, env: EditEnvironment): (r: seq<Effect>)
    ensures |r| <= 1
    ensures forall i :: 0 <= i < |r| ==> r[i].SetRangeValues? && r[i].row == state.row && r[i].column == state.column
  {
    if (state.unitId, state.sheetId) !in env.worksheets || snapshot.body.None? then []
    else
      var worksheet := env.worksheets[(state.unitId, state.sheetId)];
      var cell := if (state.row, state.column) in worksheet then worksheet[(state.row, state.column)] else EmptyCell;
      match CellAfterEdit(cell, snapshot, snapshot.body.value, env.isFormulaString)
      case None => []
      case Some(edited) =>
        [SetRangeValues(state.unitId, state.sheetId, state.row, state.column,
                        env.afterCellEdit(edited, state.unitId, state.sheetId, state.row, state.column))]
  }

  /** Past the ESC key, the bridge state and the document, hiding is exit, move, then write-back. */
  lemma ExitEffectsThroughWriteBack(keycode: Option<KeyCode>, env: EditEnvironment, state: EditorBridgeState, snapshot: DocumentSnapshot)
    requires keycode != Some(Esc) && env.bridgeState == Some(state) && state.document == Some(snapshot)
    ensures var move := MoveCursorCommand(keycode, env.moveSelectionKeys);
      ExitEffects(keycode, env) == [ExitInput] + (if move.Some? then [move.value] else []) + WriteBackEffects(state, snapshot, env)
  {
  }

  /** Hiding with ESC exits the editor and does nothing else: no cell write, no selection move. */
  lemma EscapeOnlyExits(env: EditEnvironment)
    ensures ExitEffects(Some(Esc), env) == [ExitInput]
  {
  }

  /** A selection move, when there is one, comes before the cell write. */
  lemma MoveBeforeWrite(keycode: Option<KeyCode>, env: EditEnvironment)
    ensures var r := ExitEffects(keycode, env);
      forall i :: 0 <= i < |r| && (r[i].MoveSelection? || r[i].MoveSelectionEnterAndTab?) ==>
        i == 1 && keycode.Some? && keycode.value != Esc && keycode.value in env.moveSelectionKeys
  {
    var r := ExitEffects(keycode, env);
    if keycode != Some(Esc) && env.bridgeState.Some? && env.bridgeState.value.document.Some? {
      var state := env.bridgeState.value;
      var w := WriteBackEffects(state, state.document.value, env);
      assert forall i :: 0 <= i < |w| ==> w[i].SetRangeValues?;
    }
  }

  /** The controller's state and the commands it has dispatched. */
  class EndEditController {
    var editorVisiblePrevious: bool
    var isCursorChange: CursorState
    var trace: seq<Effect>
    /** Whether the pointer-down listener got attached (the editor existed at start-up). */
    const cursorListenerAttached: bool

    /** The cursor state is `InitialState` exactly while the editor is hidden. */
    ghost predicate Valid()
      reads this
    {
      editorVisiblePrevious <==> isCursorChange != InitialState
    }

    constructor(editorExists: bool)
      ensures Valid()
      ensures !editorVisiblePrevious && isCursorChange == InitialState && trace == []
      ensures cursorListenerAttached == editorExists
    {
      editorVisiblePrevious := false;
      isCursorChange := InitialState;
      trace := [];
      cursorListenerAttached := editorExists;
    }

    /**
     * The `visible$` subscriber: a repeated visibility changes nothing;
     * showing the editor starts a fresh edit; hiding it resets the cursor
     * state and runs the exit path.
     */
    method OnVisibleChange(param: VisibleParam, env: EditEnvironment)
      requires Valid()
      modifies this`editorVisiblePrevious, this`isCursorChange, this`trace
      ensures Valid()
      ensures param.visible == old(editorVisiblePrevious) ==>
        editorVisiblePrevious == old(editorVisiblePrevious) && isCursorChange == old(isCursorChange) && trace == old(trace)
      ensures param.visible != old(editorVisiblePrevious) ==> editorVisiblePrevious == param.visible
      ensures param.visible && !old(editorVisiblePrevious) ==> isCursorChange == StartEditor && trace == old(trace)
      ensures !param.visible && old(editorVisiblePrevious) ==>
        isCursorChange == InitialState && trace == old(trace) + ExitEffects(param.keycode, env)
    {
      if param.visible == editorVisiblePrevious {
        return;
      }
      editorVisiblePrevious := param.visible;
      if param.visible {
        isCursorChange := StartEditor;
        return;
      }
      isCursorChange := InitialState;
      trace := trace + [ExitInput];
      if param.keycode == Some(Esc) {
        return;
      }
      if env.bridgeState.None? {
        return;
      }
      var state := env.bridgeState.value;
      if state.document.None? {
        return;
      }
      var snapshot := state.document.value;
      ExitEffectsThroughWriteBack(param.keycode, env, state, snapshot);
      MoveCursor(param.keycode, env.moveSelectionKeys);
      WriteBack(state, snapshot, env);
    }

    /** `_moveCursor`: dispatches the selection move for the key, if it has one. */
    method MoveCursor(keycode: Option<KeyCode>, moveSelectionKeys: set<KeyCode>)
      modifies this`trace
      ensures var move := MoveCursorCommand(keycode, moveSelectionKeys);
        trace == old(trace) + (if move.Some? then [move.value] else [])
    {
      if keycode.None? || keycode.value !in moveSelectionKeys {
        return;
      }
      var k := keycode.value;
      var direction := CursorDirection(k);
      if k == Enter || k == Tab {
        trace := trace + [MoveSelectionEnterAndTab(k, direction)];
      } else {
        trace := trace + [MoveSelection(direction)];
      }
    }

    /**
     * The write-back tail of the `visible$` subscriber: look the cell up,
     * decide what to write, pass it through the AFTER_CELL_EDIT interceptor
     * and dispatch `SetRangeValues` for that one cell.
     */
    method WriteBack(state: EditorBridgeState, snapshot: DocumentSnapshot, env: EditEnvironment)
      modifies this`trace
      ensures trace == old(trace) + WriteBackEffects(state, snapshot, env)
    {
      if (state.unitId, state.sheetId) !in env.worksheets {
        return;
      }
      var worksheet := env.worksheets[(state.unitId, state.sheetId)];
      var cellData := if (state.row, state.column) in worksheet then worksheet[(state.row, state.column)] else EmptyCell;
      if snapshot.body.None? {
        return;
      }
      var body := snapshot.body.value;
      ghost var original := cellData;
      if body.textRunCount > 1 {
        cellData := cellData.(p := Some(snapshot));
      } else {
        var newDataStream := StripEmptyDocumentValue(body.dataStream);
        if cellData.v == Some(Text(newDataStream)) {
          return;
        }
        if env.isFormulaString(newDataStream) {
          cellData := cellData.(f := Some(newDataStream));
        } else {
          cellData := cellData.(v := Some(Text(newDataStream)));
          cellData := cellData.(m := Some(newDataStream));
        }
      }
      assert CellAfterEdit(original, snapshot, body, env.isFormulaString) == Some(cellData);
      var cell := env.afterCellEdit(cellData, state.unitId, state.sheetId, state.row, state.column);
      trace := trace + [SetRangeValues(state.unitId, state.sheetId, state.row, state.column, cell)];
    }

    /** The editor's pointer-down observer: a click right after opening marks a cursor change. */
    method OnPointerDown()
      requires Valid()
      modifies this`isCursorChange
      ensures Valid()
      ensures cursorListenerAttached && old(isCursorChange) == StartEditor ==> isCursorChange == CursorChange
      ensures !(cursorListenerAttached && old(isCursorChange) == StartEditor) ==> isCursorChange == old(isCursorChange)
    {
      if cursorListenerAttached && isCursorChange == StartEditor {
        isCursorChange := CursorChange;
      }
    }

    /**
     * The command listener: after a click in the editor an arrow command with
     * a key moves the cursor inside the editor; otherwise it is forwarded to
     * the bridge's `changeVisible`. Other commands are ignored.
     */
    method OnCommandExecuted(command: CommandInfo)
      modifies this`trace
      ensures command.OtherCommand? ==> trace == old(trace)
      ensures command.SetCellEditVisibleArrow? && command.params.keycode.Some? && isCursorChange == CursorChange ==>
        trace == old(trace) + [MoveCursorInEditor(EditorDirection(command.params.keycode.value))]
      ensures command.SetCellEditVisibleArrow? && !(command.params.keycode.Some? && isCursorChange == CursorChange) ==>
        trace == old(trace) + [ChangeVisible(command.params)]
    {
      if command.SetCellEditVisibleArrow? {
        var params := command.params;
        if params.keycode.Some? && isCursorChange == CursorChange {
          trace := trace + [MoveCursorInEditor(EditorDirection(params.keycode.value))];
          return;
        }
        trace := trace + [ChangeVisible(params)];
      }
    }
  }

  /** A session: open the editor, click inside it, press an arrow, then close it with ESC. */
  method ClickThenArrowThenEscape(env: EditEnvironment)
  {
    var controller := new EndEditController(true);
    controller.OnVisibleChange(VisibleParam(true, None), env);
    assert controller.isCursorChange == StartEditor;
    controller.OnVisibleChange(VisibleParam(true, None), env);
    assert controller.trace == [];
    controller.OnPointerDown();
    assert controller.isCursorChange == CursorChange;
    controller.OnCommandExecuted(SetCellEditVisibleArrow(VisibleParam(false, Some(ArrowUp))));
    assert controller.trace == [MoveCursorInEditor(Up)];
    controller.OnVisibleChange(VisibleParam(false, Some(Esc)), env);
    EscapeOnlyExits(env);
    assert controller.trace == [MoveCursorInEditor(Up), ExitInput];
    assert controller.isCursorChange == InitialState;
  }
}
