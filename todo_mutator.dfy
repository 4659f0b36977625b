/**
 * The todo mutators of artifacts/text/client.tsx: completing a todo deletes
 * its bullet line (and the continuation lines after it) from the document,
 * editing a todo rewrites the first bullet whose text matches, uncompleting
 * edits the metadata only, and a streamed text delta extends the content.
 *
 * Completion recomputes its own ids, `habit-index-first50(text)`, where the
 * index counts every non-empty bullet of the document. That scheme is not
 * the one of components/todo-list.tsx, and nothing here relates the two.
 */
module TodoMutator {
  import opened Options
  import opened Text

  // ---------------------------------------------------------------------
  // The regular expressions of the completion and edit loops

  /**
   * `/^>\s*M\s*(.+)$/ || /^M\s*(.+)$/` for the marker `M` (`###` or `-`),
   * applied to a trimmed line. The `\s*` after `>` stops at the marker,
   * which is not white space, so no backtracking can move it.
   */
  function MarkedCapture(t: string, marker: string): Option<string>
    requires marker != [] && !IsSpace(marker[0]) && marker[0] != '>'
  {
    if t != [] && t[0] == '>' then
      var u := TrimStart(t[1..]);
      if StartsWith(u, marker) then SpacesThenRest(u[|marker|..]) else None
    else if StartsWith(t, marker) then SpacesThenRest(t[|marker|..])
    else None
  }

  /** `habitMatch`: `> ### name` or `### name`. */
  function HabitCapture(t: string): Option<string> {
    MarkedCapture(t, "###")
  }

  /** `actionMatch`: `> - text` or `- text`. */
  function ActionCapture(t: string): Option<string> {
    MarkedCapture(t, "-")
  }

  /** What the completion loop sees in one line. */
  datatype Role =
    | Heading(habit: string)   // `> ### name` or `### name`; `habit` is the trimmed name
    | Bullet(text: string)     // `> - text` or `- text`; `text` is the trimmed action text
    | Blank                    // empty once trimmed
    | Plain                    // anything else: a continuation line

  function RoleOf(line: string): Role {
    var t := Trim(line);
    match HabitCapture(t)
    case Some(h) => Heading(Trim(h))
    case None =>
      match ActionCapture(t)
      case Some(a) => Bullet(Trim(a))
      case None => if t == [] then Blank else Plain
  }

  /** `isNewFormat`: the lines that end a run of skipped continuation lines. */
  lemma NewFormatLines(line: string)
    ensures var t := Trim(line);
            (HabitCapture(t).Some? || ActionCapture(t).Some? || t == []) <==> !RoleOf(line).Plain?
  {
  }

  function Roles(lines: seq<string>): (roles: seq<Role>)
    ensures |roles| == |lines|
    ensures forall k :: 0 <= k < |lines| ==> roles[k] == RoleOf(lines[k])
  {
    seq(|lines|, k requires 0 <= k < |lines| => RoleOf(lines[k]))
  }

  // ---------------------------------------------------------------------
  // Completing a todo: handleToggleTodo(id, true)

  /** The id the completion loop computes for a bullet. */
  function TodoId(habit: string, index: nat, text: string): string {
    habit + "-" + NatToString(index) + "-" + Take(text, 50)
  }

  /** The completion loop's variables. */
  datatype Walk = Walk(habit: string, index: nat, found: bool, skip: bool, kept: seq<string>)

  const Start := Walk("", 0, false, false, [])

  /** One iteration of the completion loop, for `line` whose role is `role`. */
  function Visit(w: Walk, line: string, role: Role, id: string): Walk {
    if w.skip && role.Plain? then w
    else
      var w := w.(skip := false);
      match role
      case Heading(h) => w.(habit := h, kept := w.kept + [line])
      case Bullet(text) =>
        if text == [] then w.(kept := w.kept + [line])
        else if TodoId(w.habit, w.index, text) == id then w.(found := true, skip := true, index := w.index + 1)
        else w.(index := w.index + 1, kept := w.kept + [line])
      case _ => w.(kept := w.kept + [line])
  }

  /** The loop's variables after all of `lines`, whose roles are `roles`. */
  function WalkLines(lines: seq<string>, roles: seq<Role>, id: string): Walk
    requires |roles| == |lines|
  {
    if lines == [] then Start
    else
      var n := |lines| - 1;
      Visit(WalkLines(lines[..n], roles[..n], id), lines[n], roles[n], id)
  }

  /** The document after completing `id`, or None for the "cannot find" error. */
  function Complete(content: string, id: string): Option<string> {
    var lines := Split(content);
    CompleteLines(lines, Roles(lines), id)
  }

  /** The result of the completion loop over `lines`, whose roles are `roles`. */
  function CompleteLines(lines: seq<string>, roles: seq<Role>, id: string): Option<string>
    requires |roles| == |lines|
  {
    var w := WalkLines(lines, roles, id);
    if w.found then Some(Join(w.kept)) else None
  }

  /** The completing branch of `handleToggleTodo`, loop for loop. */
  method CompleteTodo(content: string, id: string) returns (newContent: Option<string>)
    ensures newContent == Complete(content, id)
  {
    var lines := Split(content);
    ghost var roles := Roles(lines);
    var newLines: seq<string> := [];
    var currentHabit := "";
    var itemIndex := 0;
    var found := false;
    var skipNextLines := false;
    for i := 0 to |lines|
      invariant Walk(currentHabit, itemIndex, found, skipNextLines, newLines) == WalkLines(lines[..i], roles[..i], id)
    {
      WalkLinesStep(lines, roles, id, i);
      assert roles[i] == RoleOf(lines[i]);
      currentHabit, itemIndex, found, skipNextLines, newLines :=
        CompleteOneLine(Walk(currentHabit, itemIndex, found, skipNextLines, newLines), lines[i], id);
    }
    assert lines[..|lines|] == lines && roles[..|lines|] == roles;
    if found {
      newContent := Some(Join(newLines));
    } else {
      newContent := None;
    }
  }

  /** The walk over one more line is one more `Visit`. */
  lemma WalkLinesStep(lines: seq<string>, roles: seq<Role>, id: string, i: nat)
    requires |roles| == |lines| && i < |lines|
    ensures WalkLines(lines[..i + 1], roles[..i + 1], id) == Visit(WalkLines(lines[..i], roles[..i], id), lines[i], roles[i], id)
  {
    assert lines[..i + 1][..i] == lines[..i] && roles[..i + 1][..i] == roles[..i];
  }

  /** One iteration of the completion loop, from the loop's variables `w`; `return` is the source's `continue`. */
  method CompleteOneLine(w: Walk, line: string, id: string)
    returns (currentHabit: string, itemIndex: nat, found: bool, skipNextLines: bool, newLines: seq<string>)
    ensures Walk(currentHabit, itemIndex, found, skipNextLines, newLines) == Visit(w, line, RoleOf(line), id)
  {
    ghost var after := Visit(w, line, RoleOf(line), id);
    currentHabit, itemIndex, found, skipNextLines, newLines := w.habit, w.index, w.found, w.skip, w.kept;
    var trimmed := Trim(line);
    if skipNextLines {
      var isNewFormat := HabitCapture(trimmed).Some? || ActionCapture(trimmed).Some? || trimmed == "";
      if isNewFormat {
        skipNextLines := false;
      } else {
        assert RoleOf(line) == Plain;
        return;
      }
    }
    var habitMatch := HabitCapture(trimmed);
    if habitMatch.Some? {
      currentHabit := Trim(habitMatch.value);
      newLines := newLines + [line];
      assert RoleOf(line) == Heading(currentHabit);
      assert Walk(currentHabit, itemIndex, found, skipNextLines, newLines) == after;
      return;
    }
    var actionMatch := ActionCapture(trimmed);
    if actionMatch.Some? {
      var actionText := Trim(actionMatch.value);
      assert RoleOf(line) == Bullet(actionText);
      VisitBullet(w, line, actionText, id);
      if actionText != "" {
        var todoId := currentHabit + "-" + NatToString(itemIndex) + "-" + Take(actionText, 50);
        assert todoId == TodoId(w.habit, w.index, actionText);
        if todoId == id {
          found := true;
          skipNextLines := true;
          itemIndex := itemIndex + 1;
          assert Walk(currentHabit, itemIndex, found, skipNextLines, newLines) == after;
          return;
        }
        itemIndex := itemIndex + 1;
      }
      newLines := newLines + [line];
      assert Walk(currentHabit, itemIndex, found, skipNextLines, newLines) == after;
      return;
    }
    assert RoleOf(line) == if trimmed == "" then Blank else Plain;
    if !skipNextLines {
      newLines := newLines + [line];
    }
    assert Walk(currentHabit, itemIndex, found, skipNextLines, newLines) == after;
  }

  /** A bullet is skipped when its non-empty text gives the id, and kept otherwise; either way it ends a skipped run. */
  lemma VisitBullet(w: Walk, line: string, text: string, id: string)
    ensures var v := w.(skip := false);
            Visit(w, line, Bullet(text), id) ==
              if text == [] then v.(kept := v.kept + [line])
              else if TodoId(w.habit, w.index, text) == id then v.(found := true, skip := true, index := v.index + 1)
              else v.(index := v.index + 1, kept := v.kept + [line])
  {
  }

  // ---------------------------------------------------------------------
  // What completion promises, stated over the lines' roles

  /** The trimmed name of the last heading, or "" before any heading. */
  function HabitBefore(roles: seq<Role>): string {
    if roles == [] then ""
    else if roles[|roles| - 1].Heading? then roles[|roles| - 1].habit
    else HabitBefore(roles[..|roles| - 1])
  }

  /** The number of bullets with non-empty text: what `itemIndex` counts. */
  function BulletsBefore(roles: seq<Role>): nat {
    if roles == [] then 0
    else
      var r := roles[|roles| - 1];
      BulletsBefore(roles[..|roles| - 1]) + (if r.Bullet? && r.text != [] then 1 else 0)
  }

  /** The id of the bullet at line `k`. */
  function IdAt(roles: seq<Role>, k: nat): string
    requires k < |roles| && roles[k].Bullet?
  {
    TodoId(HabitBefore(roles[..k]), BulletsBefore(roles[..k]), roles[k].text)
  }

  /** Line `k` is a non-empty bullet whose id is `id`. */
  predicate Target(roles: seq<Role>, id: string, k: int) {
    0 <= k < |roles| && roles[k].Bullet? && roles[k].text != [] && IdAt(roles, k) == id
  }

  /** Some non-empty bullet of `roles` has the id `id`. */
  predicate HasTarget(roles: seq<Role>, id: string) {
    exists k | 0 <= k < |roles| :: Target(roles, id, k)
  }

  /** Line `k` is a target, or a continuation line in the run of continuation lines right after one. */
  predicate Removed(roles: seq<Role>, id: string, k: int) {
    0 <= k < |roles| &&
    exists j | 0 <= j <= k :: Target(roles, id, j) && AllPlain(roles, j + 1, k + 1)
  }

  /** Lines `lo` up to `hi` (exclusive) are all continuation lines. */
  predicate AllPlain(roles: seq<Role>, lo: int, hi: int) {
    forall m | lo <= m < hi && 0 <= m < |roles| :: roles[m].Plain?
  }

  /** The lines that are not removed, in their original order. */
  function Kept(lines: seq<string>, roles: seq<Role>, id: string): (kept: seq<string>)
    requires |roles| == |lines|
    ensures |kept| <= |lines|
  {
    if lines == [] then []
    else
      var n := |lines| - 1;
      Kept(lines[..n], roles[..n], id) + (if Removed(roles, id, n) then [] else [lines[n]])
  }

  /** Whether a line is removed depends only on the lines up to it. */
  lemma TargetPrefix(roles: seq<Role>, n: nat, id: string, k: int)
    requires n <= |roles| && 0 <= k < n
    ensures Target(roles[..n], id, k) <==> Target(roles, id, k)
  {
    if roles[k].Bullet? {
      assert roles[..n][..k] == roles[..k];
    }
  }

  lemma RemovedPrefix(roles: seq<Role>, n: nat, id: string, k: int)
    requires n <= |roles| && 0 <= k < n
    ensures Removed(roles[..n], id, k) <==> Removed(roles, id, k)
  {
    forall j | 0 <= j <= k ensures Target(roles[..n], id, j) <==> Target(roles, id, j) {
      TargetPrefix(roles, n, id, j);
    }
  }

  /**
   * The removed lines are each target bullet followed by the longest run of
   * lines that are neither headings, bullets nor blank.
   */
  lemma RemovedRun(roles: seq<Role>, id: string, k: nat)
    requires k < |roles|
    ensures Removed(roles, id, k) <==>
              Target(roles, id, k) || (0 < k && roles[k].Plain? && Removed(roles, id, k - 1))
  {
    if Removed(roles, id, k) && !Target(roles, id, k) {
      var j :| 0 <= j <= k && Target(roles, id, j) && AllPlain(roles, j + 1, k + 1);
      assert j < k && roles[k].Plain?;
      assert AllPlain(roles, j + 1, k);
    }
    if 0 < k && roles[k].Plain? && Removed(roles, id, k - 1) {
      var j :| 0 <= j <= k - 1 && Target(roles, id, j) && AllPlain(roles, j + 1, k);
      assert AllPlain(roles, j + 1, k + 1);
    }
    if Target(roles, id, k) {
      assert AllPlain(roles, k + 1, k + 1);
    }
  }

  /** After any prefix of lines, `currentHabit` is the last heading's name and `itemIndex` the number of non-empty bullets. */
  lemma {:induction false} WalkCounters(lines: seq<string>, roles: seq<Role>, id: string)
    requires |roles| == |lines|
    ensures WalkLines(lines, roles, id).habit == HabitBefore(roles)
    ensures WalkLines(lines, roles, id).index == BulletsBefore(roles)
  {
    if lines != [] {
      var n := |lines| - 1;
      WalkCounters(lines[..n], roles[..n], id);
    }
  }

  /** After any prefix of lines, `skipNextLines` says that the last line was removed. */
  lemma {:induction false} WalkSkip(lines: seq<string>, roles: seq<Role>, id: string)
    requires |roles| == |lines|
    ensures WalkLines(lines, roles, id).skip <==> |roles| > 0 && Removed(roles, id, |roles| - 1)
  {
    if lines != [] {
      var n := |lines| - 1;
      var pre := roles[..n];
      WalkSkip(lines[..n], pre, id);
      WalkCounters(lines[..n], pre, id);
      RemovedRun(roles, id, n);
      if n > 0 {
        RemovedPrefix(roles, n, id, n - 1);
      }
    }
  }

  /** After any prefix of lines, `found` says that some bullet so far had the id. */
  lemma {:induction false} WalkFound(lines: seq<string>, roles: seq<Role>, id: string)
    requires |roles| == |lines|
    ensures WalkLines(lines, roles, id).found <==> exists k | 0 <= k < |roles| :: Target(roles, id, k)
  {
    if lines != [] {
      var n := |lines| - 1;
      var pre := roles[..n];
      WalkFound(lines[..n], pre, id);
      WalkCounters(lines[..n], pre, id);
      TargetExistsPrefix(roles, n, id);
      VisitFound(WalkLines(lines[..n], pre, id), lines[n], roles, n, id);
    }
  }

  /** Some line before `n` is a target of the first `n` roles exactly when it is one of all the roles. */
  lemma TargetExistsPrefix(roles: seq<Role>, n: nat, id: string)
    requires n <= |roles|
    ensures (exists k | 0 <= k < n :: Target(roles[..n], id, k)) <==> (exists k | 0 <= k < n :: Target(roles, id, k))
  {
    forall k | 0 <= k < n ensures Target(roles[..n], id, k) <==> Target(roles, id, k) {
      TargetPrefix(roles, n, id, k);
    }
  }

  /** With the counters of the lines before `n`, visiting line `n` sets `found` exactly when it is a target. */
  lemma VisitFound(w: Walk, line: string, roles: seq<Role>, n: nat, id: string)
    requires n < |roles| && w.habit == HabitBefore(roles[..n]) && w.index == BulletsBefore(roles[..n])
    ensures Visit(w, line, roles[n], id).found <==> w.found || Target(roles, id, n)
  {
  }

  /** After any prefix of lines, `newLines` holds exactly the lines not removed. */
  lemma {:induction false} WalkKept(lines: seq<string>, roles: seq<Role>, id: string)
    requires |roles| == |lines|
    ensures WalkLines(lines, roles, id).kept == Kept(lines, roles, id)
  {
    if lines != [] {
      var n := |lines| - 1;
      var pre := roles[..n];
      WalkKept(lines[..n], pre, id);
      WalkSkip(lines[..n], pre, id);
      WalkCounters(lines[..n], pre, id);
      RemovedRun(roles, id, n);
      if n > 0 {
        RemovedPrefix(roles, n, id, n - 1);
      }
    }
  }

  /** The completion loop's variables after all lines. */
  lemma WalkState(lines: seq<string>, roles: seq<Role>, id: string)
    requires |roles| == |lines|
    ensures var w := WalkLines(lines, roles, id);
            && w.habit == HabitBefore(roles)
            && w.index == BulletsBefore(roles)
            && (w.found <==> exists k | 0 <= k < |roles| :: Target(roles, id, k))
            && (w.skip <==> |roles| > 0 && Removed(roles, id, |roles| - 1))
            && w.kept == Kept(lines, roles, id)
  {
    WalkCounters(lines, roles, id);
    WalkFound(lines, roles, id);
    WalkSkip(lines, roles, id);
    WalkKept(lines, roles, id);
  }

  /** Completion succeeds exactly when some non-empty bullet's recomputed id is `id`. */
  lemma CompleteFinds(content: string, id: string)
    ensures var lines := Split(content);
            var roles := Roles(lines);
            && (Complete(content, id).Some? <==> HasTarget(roles, id))
            && (Complete(content, id).Some? ==> Complete(content, id).value == Join(Kept(lines, roles, id)))
  {
    var lines := Split(content);
    var roles := Roles(lines);
    assert Complete(content, id) == CompleteLines(lines, roles, id);
    CompleteLinesFinds(lines, roles, id);
  }

  /** `CompleteFinds` for any lines and their roles. */
  lemma CompleteLinesFinds(lines: seq<string>, roles: seq<Role>, id: string)
    requires |roles| == |lines|
    ensures && (CompleteLines(lines, roles, id).Some? <==> HasTarget(roles, id))
            && (CompleteLines(lines, roles, id).Some? ==> CompleteLines(lines, roles, id).value == Join(Kept(lines, roles, id)))
  {
    WalkFound(lines, roles, id);
    WalkKept(lines, roles, id);
  }

  /** Without a target nothing is removed. */
  lemma {:induction false} KeptAllWithoutTarget(lines: seq<string>, roles: seq<Role>, id: string)
    requires |roles| == |lines|
    requires forall k | 0 <= k < |roles| :: !Target(roles, id, k)
    ensures Kept(lines, roles, id) == lines
  {
    if lines != [] {
      var n := |lines| - 1;
      forall k | 0 <= k < n ensures !Target(roles[..n], id, k) {
        TargetPrefix(roles, n, id, k);
      }
      KeptAllWithoutTarget(lines[..n], roles[..n], id);
      assert lines[..n] + [lines[n]] == lines;
    }
  }

  /** Headings, bullets that are not the target and blank lines are always kept. */
  lemma OnlyTargetsAndContinuationsRemoved(roles: seq<Role>, id: string, k: nat)
    requires k < |roles| && !roles[k].Plain? && !Target(roles, id, k)
    ensures !Removed(roles, id, k)
  {
    RemovedRun(roles, id, k);
  }

  /** The positions of the lines that are not removed, in increasing order. */
  function KeptIndices(roles: seq<Role>, id: string): (idx: seq<nat>)
    ensures forall i | 0 <= i < |idx| :: idx[i] < |roles|
  {
    if roles == [] then []
    else
      var n := |roles| - 1;
      KeptIndices(roles[..n], id) + (if Removed(roles, id, n) then [] else [n])
  }

  /** The kept positions are increasing, and they are exactly the lines that are not removed. */
  lemma KeptIndicesExact(roles: seq<Role>, id: string)
    ensures var idx := KeptIndices(roles, id);
            && (forall i | 0 <= i < |idx| :: !Removed(roles, id, idx[i]))
            && (forall i, j | 0 <= i < j < |idx| :: idx[i] < idx[j])
            && (forall k | 0 <= k < |roles| && !Removed(roles, id, k) :: k in idx)
  {
    KeptIndicesNotRemoved(roles, id);
    KeptIndicesIncreasing(roles, id);
    KeptIndicesComplete(roles, id);
  }

  /** One step of `KeptIndices`: the positions of the first `n` roles, then `n` unless it is removed. */
  lemma KeptIndicesStep(roles: seq<Role>, id: string)
    requires roles != []
    ensures var n := |roles| - 1;
            KeptIndices(roles, id) == KeptIndices(roles[..n], id) + (if Removed(roles, id, n) then [] else [n])
  {
  }

  lemma {:induction false} KeptIndicesNotRemoved(roles: seq<Role>, id: string)
    ensures var idx := KeptIndices(roles, id);
            forall i | 0 <= i < |idx| :: !Removed(roles, id, idx[i])
  {
    if roles != [] {
      var n := |roles| - 1;
      var pre := roles[..n];
      KeptIndicesNotRemoved(pre, id);
      KeptIndicesStep(roles, id);
      var idx0, idx := KeptIndices(pre, id), KeptIndices(roles, id);
      forall i | 0 <= i < |idx| ensures !Removed(roles, id, idx[i]) {
        if i < |idx0| {
          assert idx[i] == idx0[i];
          RemovedPrefix(roles, n, id, idx0[i]);
        }
      }
    }
  }

  lemma {:induction false} KeptIndicesIncreasing(roles: seq<Role>, id: string)
    ensures var idx := KeptIndices(roles, id);
            forall i, j | 0 <= i < j < |idx| :: idx[i] < idx[j]
  {
    if roles != [] {
      var n := |roles| - 1;
      KeptIndicesIncreasing(roles[..n], id);
      KeptIndicesStep(roles, id);
    }
  }

  lemma {:induction false} KeptIndicesComplete(roles: seq<Role>, id: string)
    ensures forall k | 0 <= k < |roles| && !Removed(roles, id, k) :: k in KeptIndices(roles, id)
  {
    if roles != [] {
      var n := |roles| - 1;
      var pre := roles[..n];
      KeptIndicesComplete(pre, id);
      KeptIndicesStep(roles, id);
      forall k | 0 <= k < n && !Removed(roles, id, k) ensures k in KeptIndices(pre, id) {
        RemovedPrefix(roles, n, id, k);
      }
    }
  }

  /**
   * The output of completion is an order-preserving selection of the input
   * lines: line for line the input lines at the kept positions, unchanged.
   */
  lemma {:induction false} KeptIsSubsequence(lines: seq<string>, roles: seq<Role>, id: string)
    requires |roles| == |lines|
    ensures var kept, idx := Kept(lines, roles, id), KeptIndices(roles, id);
            |kept| == |idx| && forall i | 0 <= i < |idx| :: kept[i] == lines[idx[i]]
  {
    if lines != [] {
      var n := |lines| - 1;
      KeptIsSubsequence(lines[..n], roles[..n], id);
    }
  }

  /** `itemIndex` grows by one at every non-empty bullet, and headings never reset it. */
  lemma {:induction false} IndexIncreases(roles: seq<Role>, j: nat, k: nat)
    requires j < k <= |roles| && roles[j].Bullet? && roles[j].text != []
    ensures BulletsBefore(roles[..j]) < BulletsBefore(roles[..k])
    decreases k - j
  {
    if k == j + 1 {
      assert roles[..k][..j] == roles[..j];
    } else {
      IndexIncreases(roles, j, k - 1);
      assert roles[..k][..k - 1] == roles[..k - 1];
    }
  }

  lemma {:induction false} BulletsBeforeMonotone(roles: seq<Role>, j: nat, k: nat)
    requires j <= k <= |roles|
    ensures BulletsBefore(roles[..j]) <= BulletsBefore(roles[..k])
    decreases k - j
  {
    if j < k {
      BulletsBeforeMonotone(roles, j, k - 1);
      assert roles[..k][..k - 1] == roles[..k - 1];
    }
  }

  /** The last heading's name is one of the headings' names, or "". */
  lemma {:induction false} HabitBeforeIsAHeading(roles: seq<Role>)
    ensures HabitBefore(roles) == "" || exists k | 0 <= k < |roles| :: roles[k].Heading? && roles[k].habit == HabitBefore(roles)
  {
    if roles != [] && !roles[|roles| - 1].Heading? {
      var pre := roles[..|roles| - 1];
      HabitBeforeIsAHeading(pre);
      if HabitBefore(pre) != "" {
        var k :| 0 <= k < |pre| && pre[k].Heading? && pre[k].habit == HabitBefore(pre);
        assert roles[k] == pre[k];
      }
    }
  }

  /** Splitting at the first `-`: a name without `-` is recovered from `name + "-" + rest`. */
  lemma SplitAtDash(a: string, x: string, b: string, y: string)
    requires '-' !in a && '-' !in b
    requires a + "-" + x == b + "-" + y
    ensures a == b && x == y
  {
    var s := a + "-" + x;
    DashAfter(a, x);
    DashAfter(b, y);
    assert |a| == |b|;
    assert a == s[..|a|] == b;
    assert x == s[|a| + 1..] == y;
  }

  lemma DashAfter(a: string, x: string)
    requires '-' !in a
    ensures |a| < |a + "-" + x| && (a + "-" + x)[|a|] == '-'
    ensures forall i | 0 <= i < |a| :: (a + "-" + x)[i] != '-'
  {
    assert forall i | 0 <= i < |a| :: (a + "-" + x)[i] == a[i];
  }

  lemma NatToStringHasNoDash(n: nat)
    ensures '-' !in NatToString(n)
  {
    var r := NatToString(n);
    assert forall i | 0 <= i < |r| :: r[i] != '-';
  }

  /** With dash-free habit names, distinct indexes give distinct ids. */
  lemma TodoIdInjective(h1: string, i1: nat, t1: string, h2: string, i2: nat, t2: string)
    requires '-' !in h1 && '-' !in h2
    requires TodoId(h1, i1, t1) == TodoId(h2, i2, t2)
    ensures i1 == i2
  {
    var n1, n2 := NatToString(i1), NatToString(i2);
    assert TodoId(h1, i1, t1) == h1 + "-" + (n1 + "-" + Take(t1, 50));
    assert TodoId(h2, i2, t2) == h2 + "-" + (n2 + "-" + Take(t2, 50));
    SplitAtDash(h1, n1 + "-" + Take(t1, 50), h2, n2 + "-" + Take(t2, 50));
    NatToStringHasNoDash(i1);
    NatToStringHasNoDash(i2);
    SplitAtDash(n1, Take(t1, 50), n2, Take(t2, 50));
    NatToStringInjective(i1, i2);
  }

  /**
   * Completion is exact for the ids it computes itself: when no heading name
   * holds a `-`, completing the id of a non-empty bullet removes that bullet
   * and keeps every other bullet, heading and blank line.
   */
  lemma CompleteOwnId(roles: seq<Role>, k: nat)
    requires k < |roles| && roles[k].Bullet? && roles[k].text != []
    requires forall m | 0 <= m < |roles| :: roles[m].Heading? ==> '-' !in roles[m].habit
    ensures Removed(roles, IdAt(roles, k), k)
    ensures forall m | 0 <= m < |roles| && m != k && !roles[m].Plain? :: !Removed(roles, IdAt(roles, k), m)
  {
    var id := IdAt(roles, k);
    assert AllPlain(roles, k + 1, k + 1);
    assert Target(roles, id, k);
    forall m | 0 <= m < |roles| && m != k && !roles[m].Plain? ensures !Removed(roles, id, m) {
      if Target(roles, id, m) {
        HabitDashFree(roles, k);
        HabitDashFree(roles, m);
        TodoIdInjective(HabitBefore(roles[..m]), BulletsBefore(roles[..m]), roles[m].text,
                        HabitBefore(roles[..k]), BulletsBefore(roles[..k]), roles[k].text);
        if m < k {
          IndexIncreases(roles, m, k);
        } else {
          IndexIncreases(roles, k, m);
        }
      }
      OnlyTargetsAndContinuationsRemoved(roles, id, m);
    }
  }

  lemma HabitDashFree(roles: seq<Role>, k: nat)
    requires k <= |roles|
    requires forall m | 0 <= m < |roles| :: roles[m].Heading? ==> '-' !in roles[m].habit
    ensures '-' !in HabitBefore(roles[..k])
  {
    HabitBeforeIsAHeading(roles[..k]);
  }

  /**
   * With a `-` in a heading name two bullets can share an id: `- 1-c` under
   * `### a` and `- c` under `### a-0` both get `a-0-1-c`, so completing that
   * id removes both.
   */
  lemma DashedHeadingCollision()
    ensures var roles := [Heading("a"), Bullet("1-c"), Heading("a-0"), Bullet("c")];
            && Target(roles, "a-0-1-c", 1) && Target(roles, "a-0-1-c", 3)
            && Removed(roles, "a-0-1-c", 1) && Removed(roles, "a-0-1-c", 3)
  {
    var roles := [Heading("a"), Bullet("1-c"), Heading("a-0"), Bullet("c")];
    var one, two, three := roles[..1], roles[..2], roles[..3];
    assert one[..0] == [] && two[..1] == one && three[..2] == two;
    assert HabitBefore(one) == "a" && BulletsBefore(one) == 0;
    assert BulletsBefore(two) == 1;
    assert HabitBefore(three) == "a-0" && BulletsBefore(three) == 1;
    assert NatToString(0) == "0" && NatToString(1) == "1";
    assert IdAt(roles, 1) == "a" + "-" + "0" + "-" + "1-c" == "a-0-1-c";
    assert IdAt(roles, 3) == "a-0" + "-" + "1" + "-" + "c" == "a-0-1-c";
    assert Target(roles, "a-0-1-c", 1) && AllPlain(roles, 2, 2);
    assert Target(roles, "a-0-1-c", 3) && AllPlain(roles, 4, 4);
  }

  // ---------------------------------------------------------------------
  // Uncompleting, streaming and the metadata

  /** A suggestion record; its fields play no part here. */
  type Suggestion(==)

  /** The artifact's metadata; a field is None when the object lacks it. */
  datatype Metadata = Metadata(suggestions: Option<seq<Suggestion>>, completedTodos: Option<set<string>>)

  /** The completedTodos set, with a missing metadata object or field read as empty. */
  function CompletedOf(current: Option<Metadata>): set<string> {
    match current
    case Some(m) => m.completedTodos.GetOr({})
    case None => {}
  }

  /**
   * The uncompleting branch of `handleToggleTodo`: the content is left alone
   * and the metadata keeps every field, with `id` taken out of completedTodos.
   */
  function Uncomplete(current: Option<Metadata>, id: string): (r: Metadata)
    ensures r.completedTodos == Some(CompletedOf(current) - {id})
    ensures r.suggestions == if current.Some? then current.value.suggestions else None
  {
    var completedTodos := CompletedOf(current) - {id};
    match current
    case Some(m) => m.(completedTodos := Some(completedTodos))
    case None => Metadata(None, Some(completedTodos))
  }

  /** Uncompleting removes exactly `id`: every other completed id stays, and repeating it changes nothing. */
  lemma UncompleteRemovesOnlyId(current: Option<Metadata>, id: string, other: string)
    ensures id !in CompletedOf(Some(Uncomplete(current, id)))
    ensures other != id ==> (other in CompletedOf(Some(Uncomplete(current, id))) <==> other in CompletedOf(current))
    ensures Uncomplete(Some(Uncomplete(current, id)), id) == Uncomplete(current, id)
  {
    var s := CompletedOf(current);
    assert s - {id} - {id} == s - {id};
  }

  /** What a click on a todo's checkbox does. */
  datatype ToggleOutcome =
    | Saved(content: string)        // onSaveContent(newContent, false)
    | NotFound                      // the "cannot find" error toast
    | MetadataSet(metadata: Metadata)
    | Unchanged                     // uncompleting without a metadata setter

  /** `handleToggleTodo(id, completed)`. */
  function HandleToggleTodo(content: string, id: string, completed: bool,
                            current: Option<Metadata>, hasSetMetadata: bool): (r: ToggleOutcome)
    ensures completed ==> (r.Saved? <==> Complete(content, id).Some?) && (r.NotFound? <==> Complete(content, id).None?)
    ensures !completed ==> (r.MetadataSet? <==> hasSetMetadata) && (r.Unchanged? <==> !hasSetMetadata)
    ensures r.Saved? ==> Some(r.content) == Complete(content, id)
    ensures r.MetadataSet? ==> r.metadata == Uncomplete(current, id)
  {
    if completed then
      match Complete(content, id)
      case Some(c) => Saved(c)
      case None => NotFound
    else if hasSetMetadata then MetadataSet(Uncomplete(current, id))
    else Unchanged
  }

  /** The `data-suggestion` stream part: the suggestion is appended and only `suggestions` is kept. */
  function AddSuggestion(m: Metadata, s: Suggestion): (r: Metadata)
    requires m.suggestions.Some?
    ensures r.suggestions == Some(m.suggestions.value + [s])
    ensures r.completedTodos.None?
  {
    Metadata(Some(m.suggestions.value + [s]), None)
  }

  datatype Status = Streaming | Idle

  /** The parts of the artifact that a text delta touches. */
  datatype Artifact = Artifact(content: string, isVisible: bool, status: Status)

  /** The `data-textDelta` stream part. */
  function TextDelta(a: Artifact, data: string): (r: Artifact)
    ensures r.content == a.content + data && r.status == Streaming
    ensures r.isVisible <==> a.isVisible || (a.status == Streaming && 400 < |a.content| < 450)
  {
    Artifact(a.content + data,
             if a.status == Streaming && |a.content| > 400 && |a.content| < 450 then true else a.isVisible,
             Streaming)
  }

  /** A run of text deltas, in order. */
  function TextDeltas(a: Artifact, parts: seq<string>): Artifact
    decreases parts
  {
    if parts == [] then a else TextDeltas(TextDelta(a, parts[0]), parts[1..])
  }

  function Concat(parts: seq<string>): string {
    if parts == [] then "" else parts[0] + Concat(parts[1..])
  }

  /**
   * Streaming `parts` appends their concatenation to the content, never hides
   * a visible artifact, and leaves the status `streaming` when there was a part.
   */
  lemma {:induction false} TextDeltasAccumulate(a: Artifact, parts: seq<string>)
    ensures TextDeltas(a, parts).content == a.content + Concat(parts)
    ensures a.isVisible ==> TextDeltas(a, parts).isVisible
    ensures parts != [] ==> TextDeltas(a, parts).status == Streaming
    decreases parts
  {
    if parts != [] {
      TextDeltasAccumulate(TextDelta(a, parts[0]), parts[1..]);
      assert a.content + parts[0] + Concat(parts[1..]) == a.content + Concat(parts);
    }
  }

  // ---------------------------------------------------------------------
  // Editing a todo: handleEditTodo

  /** Line `line` is a non-blank bullet whose text equals, contains or is contained in `original.trim()`. */
  predicate EditMatches(line: string, original: string) {
    var t := Trim(line);
    t != [] && ActionCapture(t).Some? &&
    var actionText := Trim(ActionCapture(t).value);
    var o := Trim(original);
    actionText == o || Contains(actionText, o) || Contains(o, actionText)
  }

  /** Which lines `EditMatches`. */
  function MatchFlags(lines: seq<string>, original: string): (flags: seq<bool>)
    ensures |flags| == |lines|
    ensures forall k | 0 <= k < |lines| :: flags[k] == EditMatches(lines[k], original)
  {
    seq(|lines|, k requires 0 <= k < |lines| => EditMatches(lines[k], original))
  }

  /** The index of the first `true`, if any. */
  function FirstTrue(flags: seq<bool>): (r: Option<nat>)
    ensures r.None? <==> forall k | 0 <= k < |flags| :: !flags[k]
    ensures r.Some? ==> r.value < |flags| && flags[r.value] && forall k | 0 <= k < r.value :: !flags[k]
  {
    if flags == [] then None
    else if flags[0] then Some(0)
    else match FirstTrue(flags[1..])
      case None => None
      case Some(k) => Some(k + 1)
  }

  /** The first line that `EditMatches`, if any: the line the edit loop stops at. */
  function FirstEditTarget(lines: seq<string>, original: string): (r: Option<nat>)
    ensures r.None? <==> forall k | 0 <= k < |lines| :: !EditMatches(lines[k], original)
    ensures r.Some? ==> r.value < |lines| && EditMatches(lines[r.value], original)
                        && forall k | 0 <= k < r.value :: !EditMatches(lines[k], original)
  {
    FirstTrue(MatchFlags(lines, original))
  }

  /** The rewritten line: its leading white space, `> ` when the trimmed line started with it, `- ` and the new text. */
  function EditedLine(line: string, newText: string): string {
    LeadingSpaces(line) + (if StartsWith(Trim(line), "> ") then "> - " else "- ") + newText
  }

  /** The lines after the edit, or None for the "cannot find" error. */
  function EditLines(lines: seq<string>, original: string, newText: string): (r: Option<seq<string>>)
    ensures r.None? <==> FirstEditTarget(lines, original).None?
    ensures r.Some? ==> |r.value| == |lines|
    ensures r.Some? ==> var k := FirstEditTarget(lines, original).value;
                        r.value[k] == EditedLine(lines[k], newText)
                        && forall m | 0 <= m < |lines| && m != k :: r.value[m] == lines[m]
  {
    match FirstEditTarget(lines, original)
    case Some(k) => Some(lines[k := EditedLine(lines[k], newText)])
    case None => None
  }

  /** `handleEditTodo(id, originalText, newText)`'s saved content; `id` plays no part. */
  function Edit(content: string, id: string, original: string, newText: string): Option<string> {
    match EditLines(Split(content), original, newText)
    case Some(lines) => Some(Join(lines))
    case None => None
  }

  /** `handleEditTodo`, loop for loop, rewriting the line array in place. */
  method EditTodo(content: string, id: string, originalText: string, newText: string) returns (newContent: Option<string>)
    ensures newContent == Edit(content, id, originalText, newText)
  {
    var split := Split(content);
    var lines := new string[|split|](k requires 0 <= k < |split| => split[k]);
    var found := false;
    var i := 0;
    while i < lines.Length
      invariant 0 <= i <= lines.Length && lines[..] == split && !found
      invariant NoEditBefore(split, originalText, i)
    {
      var matched, edited := EditOneLine(lines[i], originalText, newText);
      if matched {
        lines[i] := edited;
        found := true;
        break;
      }
      NoEditExtends(split, originalText, i);
      i := i + 1;
    }
    if found {
      EditAt(content, id, originalText, newText, i);
      newContent := Some(Join(lines[..]));
    } else {
      EditNowhere(content, id, originalText, newText);
      newContent := None;
    }
  }

  /** No line before `i` is the todo to edit. */
  predicate NoEditBefore(lines: seq<string>, original: string, i: int) {
    forall k | 0 <= k < i && k < |lines| :: !EditMatches(lines[k], original)
  }

  lemma NoEditExtends(lines: seq<string>, original: string, i: nat)
    requires i < |lines| && !EditMatches(lines[i], original)
    requires NoEditBefore(lines, original, i)
    ensures NoEditBefore(lines, original, i + 1)
  {
  }

  /** The edit saved when line `i` is the first that matches. */
  lemma EditAt(content: string, id: string, original: string, newText: string, i: nat)
    requires i < |Split(content)| && EditMatches(Split(content)[i], original)
    requires NoEditBefore(Split(content), original, i)
    ensures var lines := Split(content);
            Edit(content, id, original, newText) == Some(Join(lines[i := EditedLine(lines[i], newText)]))
  {
    assert FirstEditTarget(Split(content), original) == Some(i);
  }

  /** Nothing is saved when no line matches. */
  lemma EditNowhere(content: string, id: string, original: string, newText: string)
    requires NoEditBefore(Split(content), original, |Split(content)|)
    ensures Edit(content, id, original, newText) == None
  {
  }

  /** One iteration of the edit loop: whether `line` is the todo to edit, and its rewritten form. */
  method EditOneLine(line: string, originalText: string, newText: string) returns (matched: bool, edited: string)
    ensures matched == EditMatches(line, originalText)
    ensures matched ==> edited == EditedLine(line, newText)
  {
    matched, edited := false, line;
    var trimmed := Trim(line);
    if trimmed == "" {
      return;
    }
    var actionMatch := ActionCapture(trimmed);
    if actionMatch.Some? {
      var actionText := Trim(actionMatch.value);
      var o := Trim(originalText);
      var textMatches := actionText == o || Contains(actionText, o) || Contains(o, actionText);
      if textMatches {
        var indent := LeadingSpaces(line);
        var hasQuotePrefix := StartsWith(trimmed, "> ");
        if hasQuotePrefix {
          edited := indent + "> - " + newText;
        } else {
          edited := indent + "- " + newText;
        }
        matched := true;
      }
    }
  }

  /**
   * An edited line is again a bullet whose text is the new text, provided
   * that text is non-empty, trimmed and on one line. The `> ` quote is kept
   * only when the trimmed line starts with `> `: a bullet such as `>-x` is
   * rewritten without its `>`.
   */
  lemma EditedLineRoundTrip(line: string, newText: string)
    requires newText != [] && IsTrimmed(newText) && NoLineTerminator(newText)
    ensures var t := Trim(EditedLine(line, newText));
            ActionCapture(t) == Some(newText) && Trim(newText) == newText
  {
    var quote := StartsWith(Trim(line), "> ");
    var body := (if quote then "> - " else "- ") + newText;
    var lead := LeadingSpaces(line);
    assert EditedLine(line, newText) == lead + body;
    assert IsTrimmed(body) by {
      assert body[|body| - 1] == newText[|newText| - 1];
    }
    TrimOfLeadingSpaces(lead, body);
    if quote {
      QuotedBulletCapture(newText);
    } else {
      BulletCapture(newText);
    }
    TrimOfTrimmed(newText);
  }

  /** `- x` captures `x`. */
  lemma BulletCapture(x: string)
    requires x != [] && !IsSpace(x[0]) && NoLineTerminator(x)
    ensures ActionCapture("- " + x) == Some(x)
  {
    assert ("- " + x)[1..] == " " + x;
    CaptureAfterSpace(x);
  }

  /** `> - x` captures `x`. */
  lemma QuotedBulletCapture(x: string)
    requires x != [] && !IsSpace(x[0]) && NoLineTerminator(x)
    ensures ActionCapture("> - " + x) == Some(x)
  {
    var t := "> - " + x;
    var u := "- " + x;
    assert t[0] == '>' && t[1..] == " " + u;
    TrimStartOfLeadingSpaces(" ", u);
    assert StartsWith(u, "-") && u[1..] == " " + x;
    CaptureAfterSpace(x);
    assert ActionCapture(t) == SpacesThenRest(u[1..]);
  }

  /** `\s*(.+)$` on a space and then `x` captures `x`. */
  lemma CaptureAfterSpace(x: string)
    requires x != [] && !IsSpace(x[0]) && NoLineTerminator(x)
    ensures SpacesThenRest(" " + x) == Some(x)
  {
    TrimStartOfLeadingSpaces(" ", x);
  }

  /** Where an edit is saved, the saved document splits back into the edited lines. */
  lemma EditSplitsBack(content: string, id: string, original: string, newText: string)
    requires '\n' !in newText
    ensures Edit(content, id, original, newText).Some? ==>
              Split(Edit(content, id, original, newText).value) == EditLines(Split(content), original, newText).value
  {
    var lines := Split(content);
    match EditLines(lines, original, newText)
    case Some(edited) =>
      var k := FirstEditTarget(lines, original).value;
      assert '\n' !in EditedLine(lines[k], newText) by {
        assert '\n' !in LeadingSpaces(lines[k]) by {
          assert LeadingSpaces(lines[k]) == lines[k][..|LeadingSpaces(lines[k])|];
        }
      }
      assert forall m | 0 <= m < |edited| :: '\n' !in edited[m];
      SplitJoin(edited);
    case None =>
  }
}
