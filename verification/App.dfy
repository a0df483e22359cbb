/** The UI's keyboard state machine over state snapshots. */
module App {
  import opened Basics
  import opened State

  datatype Focus = TreePanel | MessagesPanel

  /** What the messages panel shows: the list, or one captured message. */
  datatype MessageView = List | Detail(message: RecentMessage, scroll: nat)

  datatype Key =
    | CtrlC | Char(c: char) | Tab | Esc | Enter | Backspace
    | Up | Down | Left | Right | Home | End | PageUp | PageDown | Other

  /** A terminal event: a key press, or anything else. */
  datatype Input = Press(key: Key) | Ignored

  const U16_LIMIT: nat := 0x1_0000

  /** The view-model's own state; the tree widget's is not part of it. */
  datatype Ui = Ui(focus: Focus, selectedSeq: Option<nat>, view: MessageView, shouldQuit: bool)

  const START := Ui(TreePanel, None, List, false)

  /** Position of the message with sequence number `seqNo`, if it is retained. */
  function IndexOfSeq(messages: seq<RecentMessage>, seqNo: nat): (r: Option<nat>)
    ensures r.Some? ==> r.value < |messages| && messages[r.value].seqNo == seqNo
    ensures r.Some? ==> forall i :: 0 <= i < r.value ==> messages[i].seqNo != seqNo
    ensures r.None? ==> forall m :: m in messages ==> m.seqNo != seqNo
  {
    if messages == [] then None
    else if messages[0].seqNo == seqNo then Some(0)
    else
      match IndexOfSeq(messages[1..], seqNo)
      case None => None
      case Some(i) => Some(i + 1)
  }

  function SeqAt(messages: seq<RecentMessage>, i: nat): Option<nat> {
    if i < |messages| then Some(messages[i].seqNo) else None
  }

  function BackSeq(messages: seq<RecentMessage>): Option<nat> {
    if messages == [] then None else Some(messages[|messages| - 1].seqNo)
  }

  function SelectedIndex(ui: Ui, messages: seq<RecentMessage>): Option<nat> {
    if ui.selectedSeq.None? then None else IndexOfSeq(messages, ui.selectedSeq.value)
  }

  function Clamp(x: int, lo: int, hi: int): int
    requires lo <= hi
  {
    if x < lo then lo else if x > hi then hi else x
  }

  function MovedSelection(ui: Ui, messages: seq<RecentMessage>, delta: int): Ui {
    if messages == [] then ui.(selectedSeq := None)
    else
      var found := SelectedIndex(ui, messages);
      var current := if found.Some? then found.value else |messages| - 1;
      ui.(selectedSeq := SeqAt(messages, Clamp(current + delta, 0, |messages| - 1)))
  }

  function OpenedSelected(ui: Ui, messages: seq<RecentMessage>): Ui {
    match SelectedIndex(ui, messages)
    case None => ui
    case Some(i) => if i < |messages| then ui.(view := Detail(messages[i], 0)) else ui
  }

  /** The last line a detail view can scroll to: its line count is held in 16 bits. */
  function ScrollLimit(lines: nat): nat {
    if lines % U16_LIMIT == 0 then 0 else lines % U16_LIMIT - 1
  }

  function ScrolledDown(scroll: nat, step: nat, lines: nat): nat {
    Min(Min(scroll + step, U16_LIMIT - 1), ScrollLimit(lines))
  }

  function ScrolledUp(scroll: nat, step: nat): nat {
    if scroll >= step then scroll - step else 0
  }

  function ToggledFocus(ui: Ui, messages: seq<RecentMessage>): Ui {
    match ui.focus
    case TreePanel => ui.(focus := MessagesPanel, view := List, selectedSeq := BackSeq(messages))
    case MessagesPanel => ui.(focus := TreePanel, view := List, selectedSeq := None)
  }

  function TreeKey(ui: Ui, key: Key): Ui {
    if key == Esc then ui.(shouldQuit := true) else ui
  }

  function DetailKey(ui: Ui, key: Key, lines: nat): Ui
    requires ui.view.Detail?
  {
    var scroll := ui.view.scroll;
    match key
    case Esc => ui.(view := List)
    case Left => ui.(view := List)
    case Backspace => ui.(view := List)
    case Up => ui.(view := ui.view.(scroll := ScrolledUp(scroll, 1)))
    case Down => ui.(view := ui.view.(scroll := ScrolledDown(scroll, 1, lines)))
    case PageUp => ui.(view := ui.view.(scroll := ScrolledUp(scroll, 10)))
    case PageDown => ui.(view := ui.view.(scroll := ScrolledDown(scroll, 10, lines)))
    case Home => ui.(view := ui.view.(scroll := 0))
    case Char(c) =>
      if c == 'k' then ui.(view := ui.view.(scroll := ScrolledUp(scroll, 1)))
      else if c == 'j' then ui.(view := ui.view.(scroll := ScrolledDown(scroll, 1, lines)))
      else ui
    case _ => ui
  }

  function ListKey(ui: Ui, key: Key, messages: seq<RecentMessage>): Ui {
    match key
    case Esc => ui.(focus := TreePanel, selectedSeq := None)
    case Up => MovedSelection(ui, messages, -1)
    case Down => MovedSelection(ui, messages, 1)
    case Home => ui.(selectedSeq := SeqAt(messages, 0))
    case End => ui.(selectedSeq := BackSeq(messages))
    case Enter => OpenedSelected(ui, messages)
    case Char(c) =>
      if c == 'k' then MovedSelection(ui, messages, -1)
      else if c == 'j' then MovedSelection(ui, messages, 1)
      else ui
    case _ => ui
  }

  /** One input event against the latest messages; `lines` gives the number of
      lines the detail view of a message has. */
  function Handled(ui: Ui, input: Input, messages: seq<RecentMessage>, lines: RecentMessage -> nat): Ui {
    match input
    case Ignored => ui
    case Press(key) =>
      if key == CtrlC || key == Char('q') then ui.(shouldQuit := true)
      else if key == Tab then ToggledFocus(ui, messages)
      else if ui.focus.TreePanel? then TreeKey(ui, key)
      else if ui.view.Detail? then DetailKey(ui, key, lines(ui.view.message))
      else ListKey(ui, key, messages)
  }

  // ---- The view-model as written ----

  class ViewModel {
    var focus: Focus
    var selectedSeq: Option<nat>
    var view: MessageView
    var shouldQuit: bool

    function Value(): Ui
      reads this
    {
      Ui(focus, selectedSeq, view, shouldQuit)
    }

    constructor ()
      ensures Value() == START
    {
      focus, selectedSeq, view, shouldQuit := TreePanel, None, List, false;
    }

    /** Handle a terminal input event against the latest messages. */
    method HandleEvent(input: Input, messages: seq<RecentMessage>, lines: RecentMessage -> nat)
      modifies this
      ensures Value() == Handled(old(Value()), input, messages, lines)
    {
      if input.Ignored? {
        return;
      }
      var key := input.key;
      if key == CtrlC {
        shouldQuit := true;
        return;
      }
      if key == Char('q') {
        shouldQuit := true;
        return;
      }
      if key == Tab {
        ToggleFocus(messages);
        return;
      }
      match focus {
        case TreePanel => HandleTreeKey(key);
        case MessagesPanel => HandleMessagesKey(key, messages, lines);
      }
    }

    /** Move focus between the two panels. Leaving the messages resumes following
        the newest; entering them pauses on it. */
    method ToggleFocus(messages: seq<RecentMessage>)
      modifies this
      ensures Value() == ToggledFocus(old(Value()), messages)
    {
      if focus == TreePanel {
        focus := MessagesPanel;
        view := List;
        selectedSeq := BackSeq(messages);
      } else {
        focus := TreePanel;
        view := List;
        selectedSeq := None;
      }
    }

    method HandleTreeKey(key: Key)
      modifies this`shouldQuit
      ensures Value() == TreeKey(old(Value()), key)
    {
      if key == Esc {
        shouldQuit := true;
      }
    }

    method HandleMessagesKey(key: Key, messages: seq<RecentMessage>, lines: RecentMessage -> nat)
      modifies this
      ensures var was := old(Value());
        Value() == if was.view.Detail? then DetailKey(was, key, lines(was.view.message)) else ListKey(was, key, messages)
    {
      match view {
        case Detail(message, scroll) =>
          if key == Esc || key == Left || key == Backspace {
            view := List;
          } else if key == Up || key == Char('k') {
            view := Detail(message, ScrolledUp(scroll, 1));
          } else if key == Down || key == Char('j') {
            view := Detail(message, ScrolledDown(scroll, 1, lines(message)));
          } else if key == PageUp {
            view := Detail(message, ScrolledUp(scroll, 10));
          } else if key == PageDown {
            view := Detail(message, ScrolledDown(scroll, 10, lines(message)));
          } else if key == Home {
            view := Detail(message, 0);
          }
        case List =>
          if key == Esc {
            focus := TreePanel;
            selectedSeq := None;
          } else if key == Up || key == Char('k') {
            MoveSelection(messages, -1);
          } else if key == Down || key == Char('j') {
            MoveSelection(messages, 1);
          } else if key == Home {
            selectedSeq := SeqAt(messages, 0);
          } else if key == End {
            selectedSeq := BackSeq(messages);
          } else if key == Enter {
            OpenSelected(messages);
          }
      }
    }

    /** Move the selection `delta` rows, by sequence number. */
    method MoveSelection(messages: seq<RecentMessage>, delta: int)
      modifies this`selectedSeq
      ensures Value() == MovedSelection(old(Value()), messages, delta)
    {
      if messages == [] {
        selectedSeq := None;
        return;
      }
      var current := |messages| - 1;
      if selectedSeq.Some? {
        var found := IndexOfSeq(messages, selectedSeq.value);
        if found.Some? {
          current := found.value;
        }
      }
      var next := Clamp(current + delta, 0, |messages| - 1);
      selectedSeq := Some(messages[next].seqNo);
    }

    /** Open the selected message, capturing it. */
    method OpenSelected(messages: seq<RecentMessage>)
      modifies this`view
      ensures Value() == OpenedSelected(old(Value()), messages)
    {
      if selectedSeq.Some? {
        var index := IndexOfSeq(messages, selectedSeq.value);
        if index.Some? {
          view := Detail(messages[index.value], 0);
        }
      }
    }
  }

  // ---- Every session ----

  /** One thing the UI sees: an input against the messages of its latest snapshot. */
  datatype Moment = Moment(input: Input, messages: seq<RecentMessage>)

  function Session(moments: seq<Moment>, lines: RecentMessage -> nat): Ui {
    if moments == [] then START
    else
      var last := moments[|moments| - 1];
      Handled(Session(moments[..|moments| - 1], lines), last.input, last.messages, lines)
  }

  /** Tree focus means the live list with nothing selected; an open message means
      the messages panel has focus and its scroll position is one of its lines. */
  ghost predicate Consistent(ui: Ui, lines: RecentMessage -> nat) {
    && (ui.focus.TreePanel? ==> ui.view.List? && ui.selectedSeq.None?)
    && (ui.view.Detail? ==> ui.focus.MessagesPanel? && ui.view.scroll < lines(ui.view.message))
  }

  lemma ConsistentStep(ui: Ui, input: Input, messages: seq<RecentMessage>, lines: RecentMessage -> nat)
    requires Consistent(ui, lines) && forall m :: lines(m) > 0
    ensures Consistent(Handled(ui, input, messages, lines), lines)
  {
  }

  /** Over every interleaving of inputs and snapshot changes. */
  lemma {:induction false} AlwaysConsistent(moments: seq<Moment>, lines: RecentMessage -> nat)
    requires forall m :: lines(m) > 0
    ensures Consistent(Session(moments, lines), lines)
  {
    if moments != [] {
      var last := moments[|moments| - 1];
      AlwaysConsistent(moments[..|moments| - 1], lines);
      ConsistentStep(Session(moments[..|moments| - 1], lines), last.input, last.messages, lines);
    }
  }

  lemma SessionOneMore(moments: seq<Moment>, m: Moment, lines: RecentMessage -> nat)
    ensures Session(moments + [m], lines) == Handled(Session(moments, lines), m.input, m.messages, lines)
  {
    assert (moments + [m])[..|moments|] == moments;
  }

  /** Once asked to quit, the UI stays asked to quit. */
  lemma {:induction false} QuitIsFinal(moments: seq<Moment>, more: seq<Moment>, lines: RecentMessage -> nat)
    requires Session(moments, lines).shouldQuit
    ensures Session(moments + more, lines).shouldQuit
    decreases |more|
  {
    if more == [] {
      assert moments + more == moments;
    } else {
      QuitIsFinal(moments, more[..|more| - 1], lines);
      assert moments + more == moments + more[..|more| - 1] + [more[|more| - 1]];
      SessionOneMore(moments + more[..|more| - 1], more[|more| - 1], lines);
    }
  }

  /** The opened message never changes while it is shown, whatever snapshots arrive:
      a different one can be shown only after the view has been closed. */
  lemma {:induction false} OpenedMessageStays(moments: seq<Moment>, more: seq<Moment>, lines: RecentMessage -> nat)
    requires forall k :: 0 <= k <= |more| ==> Session(moments + more[..k], lines).view.Detail?
    ensures Session(moments, lines).view.Detail? && Session(moments + more, lines).view.Detail?
    ensures Session(moments + more, lines).view.message == Session(moments, lines).view.message
    decreases |more|
  {
    assert more[..0] == [] && moments + [] == moments;
    if more == [] {
      assert moments + more == moments;
    } else {
      var before := more[..|more| - 1];
      forall k | 0 <= k <= |before| ensures Session(moments + before[..k], lines).view.Detail? {
        assert before[..k] == more[..k];
      }
      OpenedMessageStays(moments, before, lines);
      assert moments + more == moments + before + [more[|more| - 1]];
      SessionOneMore(moments + before, more[|more| - 1], lines);
      assert more[..|more|] == more;
    }
  }

  // ---- Scrolling ----

  /** `n` presses of the down key in a detail view of `lines` lines. */
  function DownPresses(scroll: nat, n: nat, lines: nat): nat {
    if n == 0 then scroll else ScrolledDown(DownPresses(scroll, n - 1, lines), 1, lines)
  }

  lemma {:induction false} DownReachesLimit(n: nat, lines: nat)
    ensures DownPresses(0, n, lines) == Min(n, ScrollLimit(lines))
  {
    if n > 0 {
      DownReachesLimit(n - 1, lines);
    }
  }

  /** Scrolling down can reach the last line exactly when the line count fits the
      16 bits it is held in; beyond that it stops short. */
  lemma LastLineReachable(lines: nat)
    requires lines > 0
    ensures (exists n: nat :: DownPresses(0, n, lines) == lines - 1) <==> lines < U16_LIMIT
  {
    DownReachesLimit(lines - 1, lines);
    if exists n: nat :: DownPresses(0, n, lines) == lines - 1 {
      var n: nat :| DownPresses(0, n, lines) == lines - 1;
      DownReachesLimit(n, lines);
    }
  }

  // ---- Selection ----

  /** Sequence numbers run on without gaps, as the state owner publishes them. */
  ghost predicate Contiguous(messages: seq<RecentMessage>) {
    forall i :: 0 <= i < |messages| ==> messages[i].seqNo == messages[0].seqNo + i
  }

  /** On a contiguous buffer, moving by search moves the sequence number itself:
      the selection (or the newest message, if what was selected has rotated out)
      plus the step, kept within what is retained. */
  lemma SelectionMovesBySeq(ui: Ui, messages: seq<RecentMessage>, delta: int)
    requires messages != [] && Contiguous(messages)
    ensures var front, back := messages[0].seqNo, messages[|messages| - 1].seqNo;
      var from := if ui.selectedSeq.Some? && front <= ui.selectedSeq.value <= back then ui.selectedSeq.value else back;
      var moved := Clamp(from + delta, front, back);
      moved >= 0 && MovedSelection(ui, messages, delta).selectedSeq == Some(moved)
  {
    if ui.selectedSeq.Some? {
      var wanted := ui.selectedSeq.value;
      if messages[0].seqNo <= wanted <= messages[|messages| - 1].seqNo {
        assert messages[wanted - messages[0].seqNo] in messages;
      }
    }
  }

  /** The row the list highlights: the selection, or the newest message if nothing
      retained is selected. */
  function DisplayedRow(ui: Ui, messages: seq<RecentMessage>): nat
    requires messages != []
  {
    var found := SelectedIndex(ui, messages);
    if found.Some? then found.value else |messages| - 1
  }

  /** What is highlighted after a move is where the highlight was, moved. */
  lemma HighlightFollowsMove(ui: Ui, messages: seq<RecentMessage>, delta: int)
    requires messages != [] && Contiguous(messages)
    ensures DisplayedRow(MovedSelection(ui, messages, delta), messages)
      == Clamp(DisplayedRow(ui, messages) + delta, 0, |messages| - 1)
  {
    var row := Clamp(DisplayedRow(ui, messages) + delta, 0, |messages| - 1);
    assert messages[row] in messages;
  }

  // ---- What each key does ----

  /** The number selected, or the newest if what was selected has rotated out. */
  ghost function SelectedOrNewest(ui: Ui, messages: seq<RecentMessage>): nat
    requires messages != []
  {
    var front, back := messages[0].seqNo, messages[|messages| - 1].seqNo;
    if ui.selectedSeq.Some? && front <= ui.selectedSeq.value <= back then ui.selectedSeq.value else back
  }

  lemma MoveKeys(ui: Ui, messages: seq<RecentMessage>, lines: RecentMessage -> nat)
    requires ui.focus.MessagesPanel? && ui.view.List?
    ensures Handled(ui, Press(Up), messages, lines) == Handled(ui, Press(Char('k')), messages, lines)
      == MovedSelection(ui, messages, -1)
    ensures Handled(ui, Press(Down), messages, lines) == Handled(ui, Press(Char('j')), messages, lines)
      == MovedSelection(ui, messages, 1)
  {
  }

  /** A step of the selection, one earlier or one later. */
  lemma StepSelects(ui: Ui, messages: seq<RecentMessage>)
    requires messages != [] && Contiguous(messages)
    ensures var front, back := messages[0].seqNo, messages[|messages| - 1].seqNo;
      var from := SelectedOrNewest(ui, messages);
      && front <= from <= back
      && MovedSelection(ui, messages, -1) == ui.(selectedSeq := Some(if from > front then from - 1 else front))
      && MovedSelection(ui, messages, 1) == ui.(selectedSeq := Some(if from < back then from + 1 else back))
  {
    SelectionMovesBySeq(ui, messages, -1);
    SelectionMovesBySeq(ui, messages, 1);
  }

  /** In the list, Up and `k` select one earlier and Down and `j` one later, as far as
      the messages go; Home selects the oldest and End the newest. */
  lemma ListKeysSelect(ui: Ui, messages: seq<RecentMessage>, lines: RecentMessage -> nat)
    requires ui.focus.MessagesPanel? && ui.view.List? && messages != [] && Contiguous(messages)
    ensures var front, back := messages[0].seqNo, messages[|messages| - 1].seqNo;
      var from := SelectedOrNewest(ui, messages);
      var earlier := ui.(selectedSeq := Some(if from > front then from - 1 else front));
      var later := ui.(selectedSeq := Some(if from < back then from + 1 else back));
      && Handled(ui, Press(Up), messages, lines) == earlier && Handled(ui, Press(Char('k')), messages, lines) == earlier
      && Handled(ui, Press(Down), messages, lines) == later && Handled(ui, Press(Char('j')), messages, lines) == later
      && Handled(ui, Press(Home), messages, lines) == ui.(selectedSeq := Some(front))
      && Handled(ui, Press(End), messages, lines) == ui.(selectedSeq := Some(back))
  {
    MoveKeys(ui, messages, lines);
    StepSelects(ui, messages);
  }

  /** Without messages nothing can be selected or opened. */
  lemma EmptyListKeys(ui: Ui, key: Key, lines: RecentMessage -> nat)
    requires ui.focus.MessagesPanel? && ui.view.List?
    requires key == Up || key == Down || key == Home || key == End || key == Char('k') || key == Char('j')
    ensures Handled(ui, Press(key), [], lines) == ui.(selectedSeq := None)
    ensures Handled(ui, Press(Enter), [], lines) == ui
  {
  }

  /** In a detail view Up and `k` scroll one line up, Down and `j` one line down as far
      as the last line, Home to the top; Esc, Left and Backspace close it. */
  lemma DetailKeysScroll(ui: Ui, messages: seq<RecentMessage>, lines: RecentMessage -> nat)
    requires ui.focus.MessagesPanel? && ui.view.Detail?
    requires ui.view.scroll < lines(ui.view.message) < U16_LIMIT
    ensures var scroll, last := ui.view.scroll, lines(ui.view.message) - 1;
      var up := ui.(view := Detail(ui.view.message, if scroll > 0 then scroll - 1 else 0));
      var down := ui.(view := Detail(ui.view.message, if scroll < last then scroll + 1 else last));
      && Handled(ui, Press(Up), messages, lines) == up && Handled(ui, Press(Char('k')), messages, lines) == up
      && Handled(ui, Press(Down), messages, lines) == down && Handled(ui, Press(Char('j')), messages, lines) == down
      && Handled(ui, Press(Home), messages, lines) == ui.(view := Detail(ui.view.message, 0))
      && Handled(ui, Press(Esc), messages, lines) == ui.(view := List)
      && Handled(ui, Press(Left), messages, lines) == ui.(view := List)
      && Handled(ui, Press(Backspace), messages, lines) == ui.(view := List)
  {
  }

  /** Ctrl-C and `q` quit from anywhere, Esc from the tree; Tab enters the messages on
      the newest one and leaves them for good. */
  lemma KeysEverywhere(ui: Ui, messages: seq<RecentMessage>, lines: RecentMessage -> nat)
    ensures Handled(ui, Press(CtrlC), messages, lines) == ui.(shouldQuit := true)
    ensures Handled(ui, Press(Char('q')), messages, lines) == ui.(shouldQuit := true)
    ensures ui.focus.TreePanel? ==> Handled(ui, Press(Esc), messages, lines) == ui.(shouldQuit := true)
    ensures ui.focus.TreePanel? ==> (Handled(ui, Press(Tab), messages, lines)
      == Ui(MessagesPanel, if messages == [] then None else Some(messages[|messages| - 1].seqNo), List, ui.shouldQuit))
    ensures ui.focus.MessagesPanel? ==> Handled(ui, Press(Tab), messages, lines) == Ui(TreePanel, None, List, ui.shouldQuit)
  {
  }

  /** Keys with a meaning in the list, in a detail view, in the tree and everywhere. */
  predicate MeansSomething(ui: Ui, key: Key) {
    || key == CtrlC || key == Char('q') || key == Tab || key == Esc
    || (ui.focus.MessagesPanel? && (key == Up || key == Down || key == Char('k') || key == Char('j') || key == Home))
    || (ui.focus.MessagesPanel? && ui.view.List? && (key == End || key == Enter))
    || (ui.focus.MessagesPanel? && ui.view.Detail?
          && (key == Left || key == Backspace || key == PageUp || key == PageDown))
  }

  /** No other key, and no event that is not a key, changes anything here. */
  lemma OtherKeysIgnored(ui: Ui, key: Key, messages: seq<RecentMessage>, lines: RecentMessage -> nat)
    ensures !MeansSomething(ui, key) ==> Handled(ui, Press(key), messages, lines) == ui
    ensures Handled(ui, Ignored, messages, lines) == ui
  {
  }

  /** Enter opens exactly the selected message, at its top, and only if it is still
      retained. */
  lemma EnterOpensSelected(ui: Ui, messages: seq<RecentMessage>, lines: RecentMessage -> nat)
    requires ui.focus.MessagesPanel? && ui.view.List?
    ensures var after := Handled(ui, Press(Enter), messages, lines);
      && (after.view.Detail? <==> ui.selectedSeq.Some? && exists m :: m in messages && m.seqNo == ui.selectedSeq.value)
      && (after.view.Detail? ==>
            && after.view.message in messages && Some(after.view.message.seqNo) == ui.selectedSeq
            && after == ui.(view := Detail(after.view.message, 0)))
  {
  }

  /** Leaving the messages panel, by Tab from anywhere in it or by Esc from the
      list, always restores the tree panel following the newest messages. */
  lemma LeavingResumes(ui: Ui, messages: seq<RecentMessage>, lines: RecentMessage -> nat)
    requires Consistent(ui, lines) && ui.focus.MessagesPanel?
    ensures Handled(ui, Press(Tab), messages, lines) == START.(shouldQuit := ui.shouldQuit)
    ensures ui.view.List? ==> Handled(ui, Press(Esc), messages, lines) == START.(shouldQuit := ui.shouldQuit)
    ensures ui.view.Detail? ==> Handled(ui, Press(Esc), messages, lines) == ui.(view := List)
  {
  }

  function UpPresses(scroll: nat, n: nat): nat {
    if n == 0 then scroll else ScrolledUp(UpPresses(scroll, n - 1), 1)
  }

  lemma {:induction false} DownAddsUp(scroll: nat, n: nat, lines: nat)
    requires scroll <= ScrollLimit(lines)
    ensures DownPresses(scroll, n, lines) == Min(scroll + n, ScrollLimit(lines))
  {
    if n > 0 {
      DownAddsUp(scroll, n - 1, lines);
    }
  }

  lemma {:induction false} UpAddsUp(scroll: nat, n: nat)
    ensures UpPresses(scroll, n) == if scroll >= n then scroll - n else 0
  {
    if n > 0 {
      UpAddsUp(scroll, n - 1);
    }
  }

  /** A page is ten lines: one page key does what ten line keys do, at either edge
      as well. */
  lemma PageIsTenLines(ui: Ui, messages: seq<RecentMessage>, lines: RecentMessage -> nat)
    requires ui.focus.MessagesPanel? && ui.view.Detail?
    requires ui.view.scroll <= ScrollLimit(lines(ui.view.message))
    ensures Handled(ui, Press(PageDown), messages, lines)
      == ui.(view := ui.view.(scroll := DownPresses(ui.view.scroll, 10, lines(ui.view.message))))
    ensures Handled(ui, Press(PageUp), messages, lines) == ui.(view := ui.view.(scroll := UpPresses(ui.view.scroll, 10)))
  {
    DownAddsUp(ui.view.scroll, 10, lines(ui.view.message));
    UpAddsUp(ui.view.scroll, 10);
  }

  // ---- Layout of the frame ----

  const MESSAGES_MIN_HEIGHT: nat := 17
  const BODY_MIN_HEIGHT: nat := 8

  function Max(a: nat, b: nat): nat {
    if a >= b then a else b
  }

  /** Height of the body in a frame of `total` rows with `visible` tree rows. */
  function BodyHeight(total: nat, visible: nat): nat {
    var available := ScrolledUp(total, 2);
    var desired := Max(Min(visible + 2, U16_LIMIT - 1), BODY_MIN_HEIGHT);
    var ceiling := Max(ScrolledUp(available, MESSAGES_MIN_HEIGHT), BODY_MIN_HEIGHT);
    Min(desired, ceiling)
  }

  /** The body always keeps its floor. The messages panel, which gets the rows that
      are left, keeps its own floor for every tree exactly in frames of at least
      27 rows; and there the body shows the whole tree whenever both fit, and otherwise gives the
      messages no more than their floor. */
  lemma PanelsKeepTheirFloors(total: nat)
    requires total < U16_LIMIT
    ensures forall visible: nat :: BodyHeight(total, visible) >= BODY_MIN_HEIGHT
    ensures (forall visible: nat :: 2 + BodyHeight(total, visible) + MESSAGES_MIN_HEIGHT <= total) <==> total >= 27
    ensures forall visible: nat :: BODY_MIN_HEIGHT <= visible + 2 && 2 + (visible + 2) + MESSAGES_MIN_HEIGHT <= total ==>
      BodyHeight(total, visible) == visible + 2
    ensures forall visible: nat :: visible + 2 <= BODY_MIN_HEIGHT ==> BodyHeight(total, visible) == BODY_MIN_HEIGHT
    ensures forall visible: nat :: BODY_MIN_HEIGHT <= visible + 2 && 2 + (visible + 2) + MESSAGES_MIN_HEIGHT > total ==>
      BodyHeight(total, visible) == if total >= 27 then total - 2 - MESSAGES_MIN_HEIGHT else BODY_MIN_HEIGHT
  {
    assert BodyHeight(total, 0) >= BODY_MIN_HEIGHT;
  }
}
