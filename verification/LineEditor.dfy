/**
 * The interactive shell's line editor: escape sequences, editing keys and a ring of the last
 * eight commands. The class does what the code does; `Editor` is the same thing with an
 * unbounded history.
 */
module LineEditor {
  import opened Common

  const MAX_LINE: nat := 127
  const DEPTH: nat := 8

  const CTRL_C: byte := 3
  const CTRL_D: byte := 4
  const BACKSPACE: byte := 8
  const LF: byte := 10
  const CTRL_L: byte := 12
  const CR: byte := 13
  const CTRL_U: byte := 21
  const ESC: byte := 27
  const DEL: byte := 127
  const BRACKET: byte := 91    // '['
  const LETTER_O: byte := 79
  const UP: byte := 65         // 'A'
  const DOWN: byte := 66       // 'B'

  datatype Escape = Plain | AfterEsc | InSequence

  /** What the caller is told about one byte. */
  datatype Event = Nothing | LineReady | Interrupt | EndOfInput

  // ------------------------------------------------------------------------------------
  // The abstract editor
  // ------------------------------------------------------------------------------------

  datatype Editor = Editor(line: string, accepted: seq<string>, cursor: nat, escape: Escape)

  const FRESH: Editor := Editor("", [], 0, Plain)

  /** The oldest line that can still be recalled. */
  function Oldest(count: nat): nat {
    if count > DEPTH then count - DEPTH else 0
  }

  /** The line the cursor stands on; past the newest one there is an empty line. */
  function AtCursor(e: Editor): string {
    if e.cursor < |e.accepted| then e.accepted[e.cursor] else ""
  }

  function Recall(e: Editor, back: bool): Editor {
    if back then
      if e.cursor <= Oldest(|e.accepted|) then e
      else
        var up := e.(cursor := e.cursor - 1);
        up.(line := AtCursor(up))
    else
      if e.cursor >= |e.accepted| then e
      else
        var down := e.(cursor := e.cursor + 1);
        down.(line := AtCursor(down))
  }

  predicate IsPrintable(b: byte) { 32 <= b <= 126 }

  function FeedEscape(e: Editor, b: byte): Editor
    requires !e.escape.Plain?
  {
    if e.escape.AfterEsc? then e.(escape := if b == BRACKET || b == LETTER_O then InSequence else Plain)
    else if 0x40 <= b <= 0x7e then
      var plain := e.(escape := Plain);
      if b == UP then Recall(plain, true) else if b == DOWN then Recall(plain, false) else plain
    else e
  }

  function FeedPlain(e: Editor, b: byte): (Editor, Event) {
    if b == ESC then (e.(escape := AfterEsc), Nothing)
    else if b == CTRL_C then (e.(line := "", cursor := |e.accepted|), Interrupt)
    else if b == CTRL_D then (e, EndOfInput)
    else if b == CTRL_L then (e, Nothing)
    else if b == CTRL_U then (e.(line := ""), Nothing)
    else if b == CR then (e, LineReady)
    else if b == LF then (e, if e.line == "" then Nothing else LineReady)
    else if b == BACKSPACE || b == DEL then
      (if e.line == "" then e else e.(line := e.line[..|e.line| - 1]), Nothing)
    else if IsPrintable(b) && |e.line| < MAX_LINE then (e.(line := e.line + [b as char]), Nothing)
    else (e, Nothing)
  }

  function Feed(e: Editor, b: byte): (Editor, Event) {
    if e.escape.Plain? then FeedPlain(e, b) else (FeedEscape(e, b), Nothing)
  }

  /** A history gains a non-empty line unless it repeats the newest one. */
  function Remember(accepted: seq<string>, line: string): seq<string> {
    if line != "" && (accepted == [] || accepted[|accepted| - 1] != line) then accepted + [line] else accepted
  }

  function Accept(e: Editor): Editor {
    var accepted := Remember(e.accepted, e.line);
    e.(accepted := accepted, cursor := |accepted|, line := "")
  }

  /** A served session: what was executed, and whether it goes on. */
  datatype Session = Session(editor: Editor, commands: seq<string>, open: bool)

  /** The body of the byte loop; `quits` says which commands end the session. */
  function ServeByte(s: Session, b: byte, quits: string -> bool): Session {
    if !s.open then s
    else
      var (e, event) := Feed(s.editor, b);
      match event
      case EndOfInput => Session(e, s.commands, false)
      case LineReady => Session(Accept(e), s.commands + [e.line], !quits(e.line))
      case _ => Session(e, s.commands, true)
  }

  function Serve(s: Session, bytes: seq<byte>, quits: string -> bool): Session
    decreases |bytes|
  {
    if bytes == [] then s else Serve(ServeByte(s, bytes[0], quits), bytes[1..], quits)
  }

  // ------------------------------------------------------------------------------------
  // The class
  // ------------------------------------------------------------------------------------

  class Ring {
    var line: string
    const history: array<string>
    var historyCount: nat
    var historyCursor: nat
    var escapeState: nat
    ghost var accepted: seq<string>

    /** The ring holds the last eight accepted lines, each in the slot of its number. */
    ghost predicate Valid()
      reads this, history
    {
      && history.Length == DEPTH && historyCount == |accepted| && escapeState <= 2
      && Oldest(historyCount) <= historyCursor <= historyCount
      && forall i | Oldest(historyCount) <= i < historyCount :: history[i % DEPTH] == accepted[i]
    }

    ghost function Contents(): Editor
      reads this
    {
      Editor(line, accepted, historyCursor,
             if escapeState == 0 then Plain else if escapeState == 1 then AfterEsc else InSequence)
    }

    constructor ()
      ensures Valid() && fresh(history) && Contents() == FRESH
    {
      line, historyCount, historyCursor, escapeState := "", 0, 0, 0;
      accepted := [];
      history := new string[DEPTH](_ => "");
    }

    method RecallLine(back: bool)
      requires Valid()
      modifies this
      ensures Valid() && Contents() == Recall(old(Contents()), back)
    {
      var oldest := if historyCount > DEPTH then historyCount - DEPTH else 0;
      if back {
        if historyCursor <= oldest { return; }
        historyCursor := historyCursor - 1;
      } else {
        if historyCursor >= historyCount { return; }
        historyCursor := historyCursor + 1;
      }
      line := if historyCursor == historyCount then "" else history[historyCursor % DEPTH];
    }

    method FeedByte(input: byte) returns (event: Event)
      requires Valid()
      modifies this
      ensures Valid() && (Contents(), event) == Feed(old(Contents()), input)
    {
      event := Nothing;
      if escapeState == 1 {
        escapeState := if input == BRACKET || input == LETTER_O then 2 else 0;
        return;
      }
      if escapeState == 2 {
        if 0x40 <= input <= 0x7e {
          escapeState := 0;
          if input == UP { RecallLine(true); }
          else if input == DOWN { RecallLine(false); }
        }
        return;
      }
      if input == ESC {
        escapeState := 1;
      } else if input == CTRL_C {
        event := Interrupt;
        line := "";
        historyCursor := historyCount;
      } else if input == CTRL_D {
        event := EndOfInput;
      } else if input == CTRL_L {
      } else if input == CTRL_U {
        line := "";
      } else if input == CR || input == LF {
        if !(input == LF && line == "") { event := LineReady; }
      } else if input == BACKSPACE || input == DEL {
        if line != "" { line := line[..|line| - 1]; }
      } else if 32 <= input <= 126 && |line| < MAX_LINE {
        line := line + [input as char];
      }
    }

    method AcceptLine()
      requires Valid()
      modifies this, history
      ensures Valid() && Contents() == Accept(old(Contents()))
    {
      if line != "" && (historyCount == 0 || history[(historyCount - 1) % DEPTH] != line) {
        forall i | historyCount - DEPTH < i < historyCount && 0 <= i ensures i % DEPTH != historyCount % DEPTH {
          SlotsDiffer(i, historyCount);
        }
        history[historyCount % DEPTH] := line;
        accepted := accepted + [line];
        historyCount := historyCount + 1;
      }
      historyCursor := historyCount;
      line := "";
    }
  }

  lemma SlotsDiffer(i: nat, n: nat)
    requires i < n < i + DEPTH
    ensures i % DEPTH != n % DEPTH
  {
  }

  /** The byte loop of `serveShell`. */
  method ServeShell(editor: Ring, bytes: seq<byte>, quits: string -> bool) returns (commands: seq<string>, open: bool)
    requires editor.Valid()
    modifies editor, editor.history
    ensures editor.Valid()
    ensures Session(editor.Contents(), commands, open) == Serve(Session(old(editor.Contents()), [], true), bytes, quits)
  {
    hide Feed, Accept, Serve;
    commands, open := [], true;
    var index := 0;
    ghost var start := Session(editor.Contents(), [], true);
    assert bytes[0..] == bytes;
    while index < |bytes| && open
      invariant index <= |bytes| && editor.Valid()
      invariant Serve(start, bytes, quits) == Serve(Session(editor.Contents(), commands, open), bytes[index..], quits)
    {
      ServeStep(Session(editor.Contents(), commands, open), bytes[index..], quits);
      assert bytes[index..][1..] == bytes[index + 1..];
      var event := editor.FeedByte(bytes[index]);
      index := index + 1;
      if event.EndOfInput? {
        open := false;
      } else if event.LineReady? {
        commands := commands + [editor.line];
        open := !quits(editor.line);
        editor.AcceptLine();
      }
    }
    ServeEnds(Session(editor.Contents(), commands, open), bytes[index..], quits);
  }

  lemma ServeStep(s: Session, bytes: seq<byte>, quits: string -> bool)
    requires bytes != []
    ensures Serve(s, bytes, quits) == Serve(ServeByte(s, bytes[0], quits), bytes[1..], quits)
  {
  }

  lemma {:induction false} ServeEnds(s: Session, bytes: seq<byte>, quits: string -> bool)
    requires !s.open || bytes == []
    ensures Serve(s, bytes, quits) == s
    decreases |bytes|
  {
    if bytes != [] { ServeEnds(s, bytes[1..], quits); }
  }

  // ------------------------------------------------------------------------------------
  // What every session keeps
  // ------------------------------------------------------------------------------------

  predicate Typable(line: string) {
    |line| <= 127 && forall i | 0 <= i < |line| :: ' ' <= line[i] <= '~'
  }

  predicate NoRepeats(lines: seq<string>) {
    forall i | 0 < i < |lines| :: lines[i] != lines[i - 1]
  }

  predicate Kept(e: Editor) {
    && Typable(e.line)
    && (forall i | 0 <= i < |e.accepted| :: Typable(e.accepted[i]) && e.accepted[i] != "")
    && NoRepeats(e.accepted)
    && Oldest(|e.accepted|) <= e.cursor <= |e.accepted|
  }

  lemma FeedKeeps(e: Editor, b: byte)
    requires Kept(e)
    ensures Kept(Feed(e, b).0) && Feed(e, b).0.accepted == e.accepted
  {
  }

  lemma AcceptKeeps(e: Editor)
    requires Kept(e)
    ensures Kept(Accept(e))
  {
  }

  /** The history is the list of commands without empty ones and without repeats in a row. */
  function HistoryOf(accepted: seq<string>, commands: seq<string>): seq<string>
    decreases |commands|
  {
    if commands == [] then accepted
    else Remember(HistoryOf(accepted, commands[..|commands| - 1]), commands[|commands| - 1])
  }

  lemma HistoryOfOneMore(accepted: seq<string>, commands: seq<string>, line: string)
    ensures HistoryOf(accepted, commands + [line]) == Remember(HistoryOf(accepted, commands), line)
  {
    assert (commands + [line])[..|commands|] == commands;
  }

  lemma ServeByteKeeps(s: Session, b: byte, quits: string -> bool, before: seq<string>)
    requires Kept(s.editor) && s.editor.accepted == HistoryOf(before, s.commands)
    ensures var t := ServeByte(s, b, quits);
            Kept(t.editor) && t.editor.accepted == HistoryOf(before, t.commands)
  {
    hide Feed, Kept, Remember, HistoryOf;
    if s.open {
      FeedKeeps(s.editor, b);
      var e := Feed(s.editor, b).0;
      AcceptKeeps(e);
      HistoryOfOneMore(before, s.commands, e.line);
    }
  }

  /**
   * On every byte sequence: the line is printable and at most 127 long, the cursor stays within
   * the last eight accepted lines, and these are the executed commands without repeats.
   */
  lemma {:induction false} ServeKeeps(s: Session, bytes: seq<byte>, quits: string -> bool, before: seq<string>)
    requires Kept(s.editor) && s.editor.accepted == HistoryOf(before, s.commands)
    ensures var t := Serve(s, bytes, quits);
            Kept(t.editor) && t.editor.accepted == HistoryOf(before, t.commands)
    decreases |bytes|
  {
    hide ServeByte, Kept, HistoryOf;
    if bytes != [] {
      ServeByteKeeps(s, bytes[0], quits, before);
      ServeKeeps(ServeByte(s, bytes[0], quits), bytes[1..], quits, before);
    }
  }

  lemma EverySession(bytes: seq<byte>, quits: string -> bool)
    ensures var t := Serve(Session(FRESH, [], true), bytes, quits);
            Kept(t.editor) && t.editor.accepted == HistoryOf([], t.commands)
  {
    hide Serve;
    ServeKeeps(Session(FRESH, [], true), bytes, quits, []);
  }

  // ------------------------------------------------------------------------------------
  // Line endings
  // ------------------------------------------------------------------------------------

  lemma {:induction false} ServeConcat(s: Session, a: seq<byte>, b: seq<byte>, quits: string -> bool)
    ensures Serve(s, a + b, quits) == Serve(Serve(s, a, quits), b, quits)
    decreases |a|
  {
    hide ServeByte;
    if a == [] {
      assert a + b == b;
    } else {
      assert (a + b)[1..] == a[1..] + b;
      ServeConcat(ServeByte(s, a[0], quits), a[1..], b, quits);
    }
  }

  /** A non-empty line ends the same way with CR, LF or CR LF. */
  lemma EndingsAgree(s: Session, quits: string -> bool)
    requires s.editor.escape.Plain? && s.editor.line != ""
    ensures Serve(s, [10], quits) == Serve(s, [13], quits)
    ensures Serve(s, [13, 10], quits) == Serve(s, [13], quits)
  {
    var t := ServeByte(s, CR, quits);
    assert ServeByte(s, LF, quits) == t;
    assert ServeByte(t, LF, quits) == t;
    hide ServeByte;
    ServeStep(s, [LF], quits);
    ServeStep(s, [CR], quits);
    ServeStep(s, [CR, LF], quits);
    assert [CR, LF][1..] == [LF] && [LF][1..] == [] && [CR][1..] == [];
    ServeStep(t, [LF], quits);
  }

  /** So in any session, wherever a non-empty line is complete, its ending can be exchanged. */
  lemma LineEndingsAreInterchangeable(s: Session, a: seq<byte>, b: seq<byte>, quits: string -> bool)
    requires Serve(s, a, quits).editor.escape.Plain? && Serve(s, a, quits).editor.line != ""
    ensures Serve(s, a + ([10] + b), quits) == Serve(s, a + ([13] + b), quits)
    ensures Serve(s, a + ([13, 10] + b), quits) == Serve(s, a + ([13] + b), quits)
  {
    hide Serve;
    var t := Serve(s, a, quits);
    EndingsAgree(t, quits);
    ServeConcat(s, a, [LF] + b, quits);
    ServeConcat(s, a, [CR] + b, quits);
    ServeConcat(s, a, [CR, LF] + b, quits);
    ServeConcat(t, [LF], b, quits);
    ServeConcat(t, [CR], b, quits);
    ServeConcat(t, [CR, LF], b, quits);
  }

  // ------------------------------------------------------------------------------------
  // Recall
  // ------------------------------------------------------------------------------------

  function Press(e: Editor, keys: seq<byte>): Editor
    decreases |keys|
  {
    if keys == [] then e else Press(Feed(e, keys[0]).0, keys[1..])
  }

  /** The three bytes of an arrow key, in either of the two forms terminals send. */
  lemma ArrowRecalls(e: Editor, introducer: byte, back: bool)
    requires e.escape.Plain? && (introducer == '[' as int || introducer == 'O' as int)
    ensures Press(e, [27, introducer, (if back then 'A' else 'B') as int]) == Recall(e, back)
  {
    hide Recall;
    var key := if back then UP else DOWN;
    assert [ESC, introducer, key][1..] == [introducer, key] && [introducer, key][1..] == [key] && [key][1..] == [];
    assert Press(e, [ESC, introducer, key]) == Press(e.(escape := AfterEsc), [introducer, key]);
    assert Press(e.(escape := AfterEsc), [introducer, key]) == Press(e.(escape := InSequence), [key]);
    assert e.(escape := InSequence).(escape := Plain) == e;
    assert Press(e.(escape := InSequence), [key]) == Press(Recall(e, back), []);
  }

  function Back(e: Editor, n: nat): Editor {
    if n == 0 then e else Recall(Back(e, n - 1), true)
  }

  /** n steps back from the prompt show the n-th last line, and stop at the oldest of the last eight. */
  lemma {:induction false} BackShows(e: Editor, n: nat)
    requires Kept(e) && e.cursor == |e.accepted| && n > 0
    ensures var reach := Min(n, Min(8, |e.accepted|));
            var b := Back(e, n);
            && b.accepted == e.accepted && b.cursor == |e.accepted| - reach
            && b.line == if reach == 0 then e.line else e.accepted[|e.accepted| - reach]
  {
    if n > 1 { BackShows(e, n - 1); }
    else { assert Back(e, 0) == e; }
  }

  /** A step back that moves is undone by a step forward, except that a line being typed at the prompt is gone. */
  lemma ForthUndoesBack(e: Editor)
    requires Kept(e) && e.cursor > Oldest(|e.accepted|)
    ensures Recall(Recall(e, true), false) == e.(line := AtCursor(e))
  {
  }

  lemma BackUndoesForth(e: Editor)
    requires Kept(e) && e.cursor < |e.accepted|
    ensures Recall(Recall(e, false), true) == e.(line := AtCursor(e))
  {
  }

  // ------------------------------------------------------------------------------------
  // Typing
  // ------------------------------------------------------------------------------------

  /** The keys of a text, one byte a character. */
  function Keys(text: string): (keys: seq<byte>)
    requires forall i | 0 <= i < |text| :: ' ' <= text[i] <= '~'
    ensures |keys| == |text| && forall i | 0 <= i < |text| :: keys[i] == text[i] as int
  {
    seq(|text|, i requires 0 <= i < |text| => text[i] as int)
  }

  /** A session that takes keys as they are. */
  predicate AtPrompt(s: Session) {
    s.open && s.editor.escape.Plain?
  }

  /** What a line is after more text, as far as it fits into 127 characters. */
  function Typed(line: string, text: string): string {
    (line + text)[..Min(127, |line| + |text|)]
  }

  function Showing(s: Session, line: string): Session { s.(editor := s.editor.(line := line)) }

  lemma TypesOne(s: Session, c: char, quits: string -> bool)
    requires AtPrompt(s) && |s.editor.line| <= MAX_LINE && ' ' <= c <= '~'
    ensures ServeByte(s, c as int, quits) == Showing(s, Typed(s.editor.line, [c]))
  {
    var line := s.editor.line;
    assert (c as int) as char == c;
    assert |line| < MAX_LINE ==> Typed(line, [c]) == line + [c];
    assert |line| == MAX_LINE ==> Typed(line, [c]) == line;
  }

  lemma TypedInTwo(line: string, c: char, rest: string)
    requires |line| <= MAX_LINE
    ensures |Typed(line, [c])| <= MAX_LINE && Typed(Typed(line, [c]), rest) == Typed(line, [c] + rest)
  {
    if |line| < MAX_LINE {
      assert Typed(line, [c]) == line + [c];
      assert (line + [c]) + rest == line + ([c] + rest);
    } else {
      assert Typed(line, [c]) == line;
      assert (line + rest)[..MAX_LINE] == line && (line + ([c] + rest))[..MAX_LINE] == line;
    }
  }

  /** Typed text goes to the end of the line, as far as it fits; nothing is executed. */
  lemma {:induction false} TypedTextAppears(s: Session, text: string, quits: string -> bool)
    requires AtPrompt(s) && |s.editor.line| <= MAX_LINE && forall i | 0 <= i < |text| :: ' ' <= text[i] <= '~'
    ensures Serve(s, Keys(text), quits) == Showing(s, Typed(s.editor.line, text))
    decreases |text|
  {
    var line := s.editor.line;
    if text == "" {
      assert Typed(line, text) == line;
    } else {
      TypesOne(s, text[0], quits);
      TypedInTwo(line, text[0], text[1..]);
      assert Keys(text)[0] == text[0] as int && Keys(text)[1..] == Keys(text[1..]);
      assert [text[0]] + text[1..] == text;
      ServeStep(s, Keys(text), quits);
      hide Serve, ServeByte, Typed;
      TypedTextAppears(Showing(s, Typed(line, [text[0]])), text[1..], quits);
    }
  }

  /** A typed line and the Enter key execute exactly that line, once, and leave an empty one. */
  lemma TypedLineIsExecuted(s: Session, text: string, quits: string -> bool)
    requires AtPrompt(s) && s.editor.line == "" && |text| <= MAX_LINE && forall i | 0 <= i < |text| :: ' ' <= text[i] <= '~'
    ensures var t := Serve(s, Keys(text) + ['\r' as int], quits);
            t.commands == s.commands + [text] && t.editor.line == "" && t.editor.escape.Plain? && (t.open <==> !quits(text))
  {
    TypedTextAppears(s, text, quits);
    assert Typed("", text) == text;
    ServeConcat(s, Keys(text), [CR], quits);
    var typed := s.(editor := s.editor.(line := text));
    ServeStep(typed, [CR], quits);
    assert [CR][1..] == [];
    hide Serve;
    ServeEnds(ServeByte(typed, CR, quits), [], quits);
  }

  /** What backspace, Ctrl-U, Ctrl-C and Ctrl-D do to the line; nothing of it is executed, and the history stays. */
  lemma EditingKeys(s: Session, b: byte, quits: string -> bool)
    requires AtPrompt(s)
    ensures var t, e := ServeByte(s, b, quits), s.editor;
            && (b == 8 || b == 127 ==>
                  t == s.(editor := e.(line := if e.line == "" then "" else e.line[..|e.line| - 1])))
            && (b == 21 ==> t == s.(editor := e.(line := "")))
            && (b == 3 ==> t == s.(editor := e.(line := "", cursor := |e.accepted|)))
            && (b == 4 ==> t == s.(open := false))
            && (b == '\n' as int && e.line == "" ==> t == s)
            && (b != '\r' as int && b != '\n' as int ==> t.commands == s.commands && t.editor.accepted == e.accepted)
  {
    assert s.editor.line == "" ==> s.editor.(line := "") == s.editor;
  }

  /** So a character that is taken back was never typed. */
  lemma BackspaceUndoesTyping(s: Session, c: char, b: byte, quits: string -> bool)
    requires AtPrompt(s) && |s.editor.line| < MAX_LINE && ' ' <= c <= '~' && (b == BACKSPACE || b == DEL)
    ensures Serve(s, [c as int, b], quits) == s
  {
    var line := s.editor.line;
    var typed := ServeByte(s, c as int, quits);
    assert (c as int) as char == c;
    assert typed == s.(editor := s.editor.(line := line + [c]));
    assert (line + [c])[..|line|] == line;
    EditingKeys(typed, b, quits);
    assert ServeByte(typed, b, quits) == s;
    hide ServeByte;
    ServeStep(s, [c as int, b], quits);
    assert [c as int, b][1..] == [b] && [b][1..] == [];
    ServeStep(typed, [b], quits);
  }

  /** Other control bytes, and bytes beyond ASCII, are passed over. */
  lemma OtherBytesDoNothing(s: Session, b: byte, quits: string -> bool)
    requires AtPrompt(s) && !IsPrintable(b)
    requires b !in [3, 4, 8, 10, 13, 21, 27, 127]
    ensures ServeByte(s, b, quits) == s
  {
  }

  /** An escape sequence that is no arrow key, however long, leaves the editor as it was. */
  lemma {:induction false} OtherSequencesDoNothing(e: Editor, parameters: seq<byte>, final: byte)
    requires e.escape.InSequence? && forall i | 0 <= i < |parameters| :: !(0x40 <= parameters[i] <= 0x7e)
    requires 0x40 <= final <= 0x7e && final != UP && final != DOWN
    ensures Press(e, parameters + [final]) == e.(escape := Plain)
    decreases |parameters|
  {
    if parameters == [] {
      assert parameters + [final] == [final] && [final][1..] == [];
      assert Press(e, [final]) == Press(e.(escape := Plain), []);
    } else {
      assert (parameters + [final])[1..] == parameters[1..] + [final];
      OtherSequencesDoNothing(e, parameters[1..], final);
    }
  }
}
