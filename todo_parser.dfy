/**
 * The todo parser of components/todo-list.tsx: the document is split into
 * lines, `###` headings set the current section, five list-item shapes each
 * produce one todo item, blank lines and `#` or `---` lines are skipped, and
 * a non-blank line that matches no shape is glued onto the last item unless
 * there is none or the line starts with `-`, `*`, `#`, a digit, 一 to 十, 步
 * or 骤, in which case it is dropped.
 *
 * `ParseTodos` is the loop itself; `Todos` is the function it is proved
 * against, and the lemmas below state what the parse promises in terms of
 * the document's lines.
 */
module TodoParser {
  import opened Options
  import opened Text

  datatype TodoItem = TodoItem(id: string, text: string, completed: bool)

  /** The five list-item regular expressions, in the order they are tried. */
  datatype Pattern =
    | Numbered        // /^(\d+)[\.、]\s*(.+)$/
    | CjkNumbered     // /^[一二三四五六七八九十]+[、.]\s*(.+)$/
    | Step            // /^步骤\s*\d+[：:]\s*(.+)$/
    | Bullet          // /^[-*]\s*(.+)$/
    | SpacedNumber    // /^(\d+)\s+(.+)$/

  const Patterns: seq<Pattern> := [Numbered, CjkNumbered, Step, Bullet, SpacedNumber]

  predicate IsCjkNumeral(c: char) {
    c in "一二三四五六七八九十"
  }

  /** The length of the longest prefix of `s` made of 一 to 十. */
  function CjkNumeralRun(s: string): (n: nat)
    ensures n <= |s|
    ensures forall i {:trigger IsCjkNumeral(s[i])} :: 0 <= i < n ==> IsCjkNumeral(s[i])
    ensures n == |s| || !IsCjkNumeral(s[n])
  {
    CjkNumeralsFrom(s, 0)
  }

  function CjkNumeralsFrom(s: string, i: nat): (j: nat)
    requires i <= |s|
    ensures i <= j <= |s|
    ensures forall k {:trigger IsCjkNumeral(s[k])} :: i <= k < j ==> IsCjkNumeral(s[k])
    ensures j == |s| || !IsCjkNumeral(s[j])
    decreases |s| - i
  {
    if i < |s| && IsCjkNumeral(s[i]) then CjkNumeralsFrom(s, i + 1) else i
  }

  /** A run of `n >= 1` characters at the start of `t`, then one of `seps`, then `\s*(.+)$`. */
  function AfterRun(t: string, n: nat, seps: string): (r: Option<string>)
    requires n <= |t|
    ensures r.Some? ==> r.value != [] && |r.value| < |t| && r.value == t[|t| - |r.value|..]
  {
    if 0 < n < |t| && t[n] in seps then SpacesThenRest(t[n + 1..]) else None
  }

  /** `/^步骤\s*\d+[：:]\s*(.+)$/`. */
  function StepCapture(t: string): (r: Option<string>)
    ensures r.Some? ==> r.value != [] && |r.value| < |t| && r.value == t[|t| - |r.value|..]
  {
    if StartsWith(t, "步骤") then
      var u := TrimStart(t[2..]);
      assert u == t[|t| - |u|..];
      AfterRun(u, DigitRun(u), "：:")
    else None
  }

  /** `/^[-*]\s*(.+)$/`. */
  function BulletCapture(t: string): (r: Option<string>)
    ensures r.Some? ==> r.value != [] && |r.value| < |t| && r.value == t[|t| - |r.value|..]
  {
    if t != [] && (t[0] == '-' || t[0] == '*') then SpacesThenRest(t[1..]) else None
  }

  /** `/^(\d+)\s+(.+)$/`: `\s+` is one white-space character and then `\s*`. */
  function SpacedNumberCapture(t: string): (r: Option<string>)
    ensures r.Some? ==> r.value != [] && |r.value| < |t| && r.value == t[|t| - |r.value|..]
  {
    var d := DigitRun(t);
    if 0 < d < |t| && IsSpace(t[d]) then SpacesThenRest(t[d + 1..]) else None
  }

  /**
   * The text `match[2] || match[1]` that pattern `p` captures from the
   * trimmed line `t`, or None when `p` does not match. Each leading run is
   * maximal because the character after it never belongs to the run, so no
   * backtracking can change where it ends.
   */
  function Capture(p: Pattern, t: string): (r: Option<string>)
    ensures r.Some? ==> r.value != [] && |r.value| < |t| && r.value == t[|t| - |r.value|..]
  {
    match p
    case Numbered => AfterRun(t, DigitRun(t), ".、")
    case CjkNumbered => AfterRun(t, CjkNumeralRun(t), "、.")
    case Step => StepCapture(t)
    case Bullet => BulletCapture(t)
    case SpacedNumber => SpacedNumberCapture(t)
  }

  /** The capture of the first pattern of `ps` that matches `t`. */
  function FirstCapture(ps: seq<Pattern>, t: string): (r: Option<string>)
    ensures r.Some? ==> r.value != [] && |r.value| < |t| && r.value == t[|t| - |r.value|..]
  {
    if ps == [] then None
    else if Capture(ps[0], t).Some? then Capture(ps[0], t)
    else FirstCapture(ps[1..], t)
  }

  /** What the loop's `text` is for a trimmed line: the first list pattern's capture. */
  function ListItemText(t: string): (r: Option<string>)
    ensures r.Some? ==> r.value != [] && |r.value| < |t| && r.value == t[|t| - |r.value|..]
  {
    FirstCapture(Patterns, t)
  }

  /** Lines that start like a heading or a `---` separator; only `###` changes the section. */
  predicate IsHeadingOrRule(t: string) {
    StartsWith(t, "#") || StartsWith(t, "---") || StartsWith(t, "##")
  }

  /** `/^[-*#\d一二三四五六七八九十步骤]/`: lines that are never glued onto the previous item. */
  predicate StartsLikeItem(t: string) {
    t != [] && (t[0] in "-*#" || IsDigit(t[0]) || IsCjkNumeral(t[0]) || t[0] == '步' || t[0] == '骤')
  }

  /** How one line of the document is treated by the loop. */
  datatype LineKind =
    | Blank                      // empty once trimmed: skipped
    | Section(name: string)      // `###` heading: sets the current section
    | Rule                       // other `#` heading or `---` separator: skipped
    | Item(text: string)         // a list pattern matched: a new item with this trimmed text
    | Continuation(t: string)    // glued onto the last item, if any
    | Dropped                    // starts like an item but matches no pattern: ignored

  function Classify(line: string): LineKind {
    var t := Trim(line);
    if t == [] then Blank
    else if IsHeadingOrRule(t) then
      if StartsWith(t, "###") then Section(TrimStart(t[3..])) else Rule
    else
      match ListItemText(t)
      case Some(text) => Item(Trim(text))
      case None => if StartsLikeItem(t) then Dropped else Continuation(t)
  }

  /** The classification of each line of `lines`. */
  function Kinds(lines: seq<string>): (kinds: seq<LineKind>)
    ensures |kinds| == |lines|
    ensures forall k :: 0 <= k < |lines| ==> kinds[k] == Classify(lines[k])
  {
    seq(|lines|, k requires 0 <= k < |lines| => Classify(lines[k]))
  }

  /** The state the loop carries from line to line. */
  datatype ParseState = ParseState(section: string, items: seq<TodoItem>)

  const Initial := ParseState("", [])

  /** One iteration of the loop, for a line of kind `kind`. */
  function Advance(st: ParseState, kind: LineKind, completed: set<string>): ParseState {
    match kind
    case Section(name) => st.(section := name)
    case Item(text) =>
      var id := st.section + "-" + Take(text, 50);
      st.(items := st.items + [TodoItem(id, text, id in completed)])
    case Continuation(t) =>
      if |st.items| > 0 then
        var last := st.items[|st.items| - 1];
        st.(items := st.items[..|st.items| - 1] + [last.(text := last.text + " " + t)])
      else st
    case _ => st
  }

  /** The loop's state after lines of kinds `kinds`, in order. */
  function Parse(kinds: seq<LineKind>, completed: set<string>): ParseState {
    if kinds == [] then Initial
    else Advance(Parse(kinds[..|kinds| - 1], completed), kinds[|kinds| - 1], completed)
  }

  /** The value of the `todos` memo for `content` and `completedItems`. */
  function Todos(content: string, completed: set<string>): seq<TodoItem> {
    if content == "" then [] else Parse(Kinds(Split(content)), completed).items
  }

  /** The `todos` computation of components/todo-list.tsx, loop for loop. */
  method ParseTodos(content: string, completedItems: set<string>) returns (todos: seq<TodoItem>)
    ensures todos == Todos(content, completedItems)
  {
    if content == "" {
      return [];
    }
    var lines := Split(content);
    ghost var kinds := Kinds(lines);
    var items: seq<TodoItem> := [];
    var currentSection := "";
    var itemIndex := 0;
    for i := 0 to |lines|
      invariant ParseState(currentSection, items) == Parse(kinds[..i], completedItems)
      invariant itemIndex == |items|
    {
      assert kinds[..i + 1][..i] == kinds[..i];
      var added;
      currentSection, items, added := ParseOneLine(currentSection, items, lines[i], completedItems);
      if added {
        itemIndex := itemIndex + 1;
      }
    }
    assert kinds[..|lines|] == kinds;
    todos := items;
  }

  /**
   * One iteration of the parse loop, from the section and items so far;
   * `return` is the source's `continue`, and `added` says whether an item
   * was pushed (when the source increments `itemIndex`).
   */
  method ParseOneLine(section: string, itemsBefore: seq<TodoItem>, line: string, completedItems: set<string>)
    returns (currentSection: string, items: seq<TodoItem>, added: bool)
    ensures ParseState(currentSection, items) == Advance(ParseState(section, itemsBefore), Classify(line), completedItems)
    ensures |items| == |itemsBefore| + (if added then 1 else 0)
  {
    currentSection, items, added := section, itemsBefore, false;
    var trimmed := Trim(line);
    if trimmed == [] {
      assert Classify(line) == Blank;
      return;
    }
    if StartsWith(trimmed, "#") || StartsWith(trimmed, "---") || StartsWith(trimmed, "##") {
      if StartsWith(trimmed, "###") {
        currentSection := TrimStart(trimmed[3..]);
        assert Classify(line) == Section(currentSection);
      } else {
        assert Classify(line) == Rule;
      }
      return;
    }
    var text := MatchListItem(trimmed);
    if text.Some? {
      var trimmedText := Trim(text.value);
      assert Classify(line) == Item(trimmedText);
      var id := currentSection + "-" + Take(trimmedText, 50);
      items := items + [TodoItem(id, trimmedText, id in completedItems)];
      added := true;
    } else if StartsLikeItem(trimmed) {
      assert Classify(line) == Dropped;
    } else {
      assert Classify(line) == Continuation(trimmed);
      if |items| > 0 {
        var lastItem := items[|items| - 1];
        items := items[..|items| - 1] + [lastItem.(text := lastItem.text + " " + trimmed)];
      }
    }
  }

  /** The inner loop over the five patterns: the capture of the first that matches with non-empty text. */
  method MatchListItem(trimmed: string) returns (text: Option<string>)
    ensures text == ListItemText(trimmed)
  {
    for j := 0 to |Patterns|
      invariant ListItemText(trimmed) == FirstCapture(Patterns[j..], trimmed)
    {
      assert Patterns[j..][1..] == Patterns[j + 1..];
      var captured := Capture(Patterns[j], trimmed);
      if captured.Some? && |captured.value| > 0 {
        return captured;
      }
    }
    assert Patterns[|Patterns|..] == [];
    return None;
  }

  // ---------------------------------------------------------------------
  // What the parse promises, stated over the classified lines

  function CountItems(kinds: seq<LineKind>): nat {
    if kinds == [] then 0
    else CountItems(kinds[..|kinds| - 1]) + (if kinds[|kinds| - 1].Item? then 1 else 0)
  }

  /** The name of the last `###` heading among the lines, or "" when there is none. */
  function SectionAt(kinds: seq<LineKind>): string {
    if kinds == [] then ""
    else if kinds[|kinds| - 1].Section? then kinds[|kinds| - 1].name
    else SectionAt(kinds[..|kinds| - 1])
  }

  /** Every item has non-empty, trimmed text, and is completed exactly when its id is in `completed`. */
  predicate WellFormed(items: seq<TodoItem>, completed: set<string>) {
    forall i :: 0 <= i < |items| ==>
      items[i].text != [] && IsTrimmed(items[i].text) && (items[i].completed <==> items[i].id in completed)
  }

  /** The text a line hands to the loop is non-empty and trimmed. */
  predicate KindTrimmed(kind: LineKind) {
    && (kind.Item? ==> kind.text != [] && IsTrimmed(kind.text))
    && (kind.Continuation? ==> kind.t != [] && IsTrimmed(kind.t))
  }

  predicate TextsTrimmed(kinds: seq<LineKind>) {
    forall k :: 0 <= k < |kinds| ==> KindTrimmed(kinds[k])
  }

  /** Item lines carry non-empty trimmed text; continuation lines are non-empty and trimmed. */
  lemma ClassifiedText(line: string)
    ensures KindTrimmed(Classify(line))
  {
    var t := Trim(line);
    if Classify(line).Item? {
      var text := ListItemText(t).value;
      assert text[|text| - 1] == t[|t| - 1];
      TrimEmpty(text);
    }
  }

  lemma KindsTextsTrimmed(lines: seq<string>)
    ensures TextsTrimmed(Kinds(lines))
  {
    var kinds := Kinds(lines);
    forall k | 0 <= k < |lines| ensures KindTrimmed(kinds[k]) {
      ClassifiedText(lines[k]);
    }
  }

  lemma AppendTrimmed(a: string, t: string)
    requires a != [] && IsTrimmed(a) && t != [] && IsTrimmed(t)
    ensures a + " " + t != [] && IsTrimmed(a + " " + t)
  {
    assert (a + " " + t)[0] == a[0];
    assert (a + " " + t)[|a + " " + t| - 1] == t[|t| - 1];
  }

  /**
   * After any prefix of lines: the current section is the last `###`
   * heading's name, there is exactly one item per item line, and every item
   * is well formed.
   */
  lemma {:induction false} ParseShape(kinds: seq<LineKind>, completed: set<string>)
    requires TextsTrimmed(kinds)
    ensures Parse(kinds, completed).section == SectionAt(kinds)
    ensures |Parse(kinds, completed).items| == CountItems(kinds)
    ensures WellFormed(Parse(kinds, completed).items, completed)
  {
    if kinds != [] {
      var init := kinds[..|kinds| - 1];
      var kind := kinds[|kinds| - 1];
      assert TextsTrimmed(init);
      ParseShape(init, completed);
      var st := Parse(init, completed);
      var items := Parse(kinds, completed).items;
      if kind.Continuation? && |st.items| > 0 {
        AppendTrimmed(st.items[|st.items| - 1].text, kind.t);
        assert forall i :: 0 <= i < |st.items| - 1 ==> items[i] == st.items[i];
      }
    }
  }

  /** One line never changes the ids, the completed flags or the text prefix of earlier items. */
  lemma AdvanceExtends(st: ParseState, kind: LineKind, completed: set<string>)
    ensures var after := Advance(st, kind, completed).items;
            |st.items| <= |after| &&
            forall i :: 0 <= i < |st.items| ==>
              after[i].id == st.items[i].id && after[i].completed == st.items[i].completed
              && StartsWith(after[i].text, st.items[i].text)
  {
  }

  /** Later lines never change the ids, the completed flags or the text prefix of earlier items. */
  lemma {:induction false} ParseExtends(kinds: seq<LineKind>, n: nat, completed: set<string>)
    requires n <= |kinds|
    ensures var before := Parse(kinds[..n], completed).items;
            var after := Parse(kinds, completed).items;
            |before| <= |after| &&
            forall i :: 0 <= i < |before| ==>
              after[i].id == before[i].id && after[i].completed == before[i].completed
              && StartsWith(after[i].text, before[i].text)
    decreases |kinds| - n
  {
    if n == |kinds| {
      assert kinds[..n] == kinds;
    } else {
      var init := kinds[..|kinds| - 1];
      assert init[..n] == kinds[..n];
      ParseExtends(init, n, completed);
      AdvanceExtends(Parse(init, completed), kinds[|kinds| - 1], completed);
    }
  }

  /**
   * The k-th line, when it is an item line, produces the item whose rank is
   * the number of item lines before it. Its id is the section in force at
   * that line, "-", and the first 50 characters of its text; it keeps that id
   * and its completed flag to the end, and its final text starts with the
   * text it was created with.
   */
  lemma ItemOfLine(kinds: seq<LineKind>, k: nat, completed: set<string>)
    requires TextsTrimmed(kinds)
    requires k < |kinds| && kinds[k].Item?
    ensures var items := Parse(kinds, completed).items;
            var i := CountItems(kinds[..k]);
            var id := SectionAt(kinds[..k]) + "-" + Take(kinds[k].text, 50);
            i < |items| && items[i].id == id && items[i].completed == (id in completed)
            && StartsWith(items[i].text, kinds[k].text)
  {
    var pre := kinds[..k];
    assert kinds[..k + 1][..k] == pre;
    assert TextsTrimmed(pre);
    ParseShape(pre, completed);
    ParseExtends(kinds, k + 1, completed);
  }

  /** Item lines further down the document produce items further down the list. */
  lemma {:induction false} ItemRankIncreases(kinds: seq<LineKind>, j: nat, k: nat)
    requires j < k <= |kinds| && kinds[j].Item?
    ensures CountItems(kinds[..j]) < CountItems(kinds[..k])
    decreases k - j
  {
    if k == j + 1 {
      assert kinds[..k][..j] == kinds[..j];
    } else {
      ItemRankIncreases(kinds, j, k - 1);
      assert kinds[..k][..k - 1] == kinds[..k - 1];
    }
  }

  /** Blank lines, `#` headings and `---` separators are never items; only `###` headings are sections. */
  lemma HeadingsAndBlanksMakeNoItem(line: string)
    ensures var t := Trim(line);
            (t == [] || StartsWith(t, "#") || StartsWith(t, "---")) ==> !Classify(line).Item?
    ensures Classify(line).Section? <==> StartsWith(Trim(line), "###")
    ensures Classify(line).Section? ==> Classify(line).name == TrimStart(Trim(line)[3..])
  {
    var t := Trim(line);
    if StartsWith(t, "###") {
      assert t[..1] == t[..3][..1];
      assert IsHeadingOrRule(t);
    }
  }

  /**
   * A line that is not an item line never adds an item and never changes an
   * id or a completed flag. It changes the last item's text only when it is a
   * continuation line, by appending one space and the trimmed line; only a
   * `###` heading changes the section.
   */
  lemma NonItemLine(st: ParseState, line: string, completed: set<string>)
    requires !Classify(line).Item?
    ensures var st' := Advance(st, Classify(line), completed);
            |st'.items| == |st.items|
            && (forall i :: 0 <= i < |st.items| - 1 ==> st'.items[i] == st.items[i])
            && (|st.items| > 0 ==>
                  var last, last' := st.items[|st.items| - 1], st'.items[|st.items| - 1];
                  last'.id == last.id && last'.completed == last.completed
                  && last'.text == if Classify(line).Continuation? then last.text + " " + Trim(line) else last.text)
            && st'.section == if Classify(line).Section? then Classify(line).name else st.section
  {
  }

  /** A continuation line is exactly a non-blank line that matches no pattern and does not
      start with `-`, `*`, `#`, a digit, 一 to 十, 步 or 骤. */
  lemma ContinuationLines(line: string)
    ensures Classify(line).Continuation? <==>
              var t := Trim(line);
              t != [] && ListItemText(t).None? && !StartsLikeItem(t)
  {
  }

  /** Empty content has no todos. */
  lemma TodosOfEmptyContent(completed: set<string>)
    ensures Todos("", completed) == []
  {
  }

  /**
   * The todos of a document: one per item line, in line order, each with the
   * id its line determines, completed exactly when that id is in `completed`,
   * with non-empty trimmed text that starts with its line's item text.
   */
  lemma TodosOfContent(content: string, completed: set<string>)
    requires content != ""
    ensures var kinds := Kinds(Split(content));
            var todos := Todos(content, completed);
            |todos| == CountItems(kinds) && WellFormed(todos, completed)
            && forall k :: 0 <= k < |kinds| && kinds[k].Item? ==>
                 var i := CountItems(kinds[..k]);
                 i < |todos|
                 && todos[i].id == SectionAt(kinds[..k]) + "-" + Take(kinds[k].text, 50)
                 && StartsWith(todos[i].text, kinds[k].text)
  {
    var kinds := Kinds(Split(content));
    KindsTextsTrimmed(Split(content));
    ParseShape(kinds, completed);
    forall k | 0 <= k < |kinds| && kinds[k].Item?
      ensures var i := CountItems(kinds[..k]);
              i < |Todos(content, completed)|
              && Todos(content, completed)[i].id == SectionAt(kinds[..k]) + "-" + Take(kinds[k].text, 50)
              && StartsWith(Todos(content, completed)[i].text, kinds[k].text)
    {
      ItemOfLine(kinds, k, completed);
    }
  }

  // ---------------------------------------------------------------------
  // handleToggle

  /** The call `onToggleItem(id, completed)` that a click produces. */
  datatype ToggleCall = ToggleCall(id: string, completed: bool)

  /** `todos.find((t) => t.id === id)`, as the index of the first such item. */
  function FindById(todos: seq<TodoItem>, id: string): (r: Option<nat>)
    ensures r.None? <==> forall i :: 0 <= i < |todos| ==> todos[i].id != id
    ensures r.Some? ==> r.value < |todos| && todos[r.value].id == id
                        && forall i :: 0 <= i < r.value ==> todos[i].id != id
  {
    if todos == [] then None
    else if todos[0].id == id then Some(0)
    else match FindById(todos[1..], id)
      case None => None
      case Some(k) => Some(k + 1)
  }

  /**
   * `handleToggle(id)`: asks the handler (when there is one) to flip the
   * completed flag of the first item with that id; nothing happens when no
   * item has it.
   */
  function HandleToggle(todos: seq<TodoItem>, id: string, hasHandler: bool): (r: Option<ToggleCall>)
    ensures r.Some? <==> hasHandler && exists i :: 0 <= i < |todos| && todos[i].id == id
    ensures r.Some? ==> r.value.id == id
                        && exists i :: 0 <= i < |todos| && todos[i].id == id
                                       && (forall j :: 0 <= j < i ==> todos[j].id != id)
                                       && r.value.completed == !todos[i].completed
  {
    match FindById(todos, id)
    case Some(k) => if hasHandler then Some(ToggleCall(id, !todos[k].completed)) else None
    case None => None
  }
}
